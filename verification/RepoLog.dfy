/** What interleaved `log_append` and `append_file` calls leave in a note (mindin/notes.py:189-202, 355-383). */
module RepoLog {
  import opened Texts
  import opened NoteTools
  import opened Optimistic
  import opened NoteEdits

  predicate Appends(job: Job) {
    job.LogAppend? || job.Append?
  }

  /** A run in which every call appends to the note and nothing else writes it. */
  ghost predicate LogRun(v: Vault, t: Trace) {
    && Run(v, t)
    && match t
       case First(_) => true
       case More(before, e, _) => LogRun(v, before) && !e.Outside? && (e.Begin? ==> Appends(e.job))
  }

  /** What a call is to add: the entry it made of its line, or the content it was given. */
  function Added(job: Job, reply: Reply): string {
    if job.Append? then job.content else if reply.Entry? then reply.entry else ""
  }

  /** The log's text without the blank lines that `dump` puts in front of it. */
  function LogText(cell: Option<Version>): string {
    if cell.None? then ""
    else StripNewlines(if cell.value.text.Broken? then cell.value.text.raw else cell.value.text.body)
  }

  function AddedBy(call: Call): string
    requires call.phase.Writing?
  {
    Added(call.job, call.phase.reply)
  }

  /** The entries of the calls that committed, in commit order. */
  ghost function Entries(v: Vault, t: Trace): seq<string>
    requires Run(v, t)
  {
    if t.First? then []
    else if t.event.Commit? then Entries(v, t.before) + [AddedBy(t.before.state.calls[t.event.id])]
    else Entries(v, t.before)
  }

  function AppendOne(log: string, entry: string): string {
    StripNewlines(Extended(log, entry))
  }

  function AppendAll(log: string, entries: seq<string>): string {
    if entries == [] then log
    else AppendOne(AppendAll(log, entries[..|entries| - 1]), entries[|entries| - 1])
  }

  // ---- leading newlines do not matter ----

  lemma {:induction false} RStripSkipsNewline(s: string)
    requires s != "" && s[0] == '\n'
    ensures Blank(s) == Blank(s[1..])
    ensures !Blank(s) ==> RStrip(s) == "\n" + RStrip(s[1..])
  {
    if IsSpace(s[|s| - 1]) && |s| > 1 {
      assert s[..|s| - 1][1..] == s[1..][..|s[1..]| - 1];
      RStripSkipsNewline(s[..|s| - 1]);
    } else if |s| > 1 {
      assert s == "\n" + s[1..];
    } else {
      assert RStrip(s) == RStrip(s[..0]);
    }
  }

  lemma NewlineInFront(text: string, entry: string)
    ensures "\n" + text + "\n" + entry + "\n" == "\n" + (text + "\n" + entry + "\n")
  {
  }

  lemma ExtendedSkipsNewline(body: string, entry: string)
    requires body != "" && body[0] == '\n'
    ensures StripNewlines(Extended(body, entry)) == StripNewlines(Extended(body[1..], entry))
  {
    RStripSkipsNewline(body);
    if !Blank(body) {
      NewlineInFront(RStrip(body[1..]), entry);
      NewlineIsStripped(Extended(body[1..], entry));
    }
  }

  lemma NewlineIsStripped(s: string)
    ensures StripNewlines("\n" + s) == StripNewlines(s)
  {
    assert ("\n" + s)[1..] == s;
  }

  lemma {:induction false} AppendIgnoresLeadingNewlines(body: string, entry: string)
    ensures StripNewlines(Extended(body, entry)) == AppendOne(StripNewlines(body), entry)
  {
    if body != "" && body[0] == '\n' {
      ExtendedSkipsNewline(body, entry);
      AppendIgnoresLeadingNewlines(body[1..], entry);
    }
  }

  // ---- the log is the starting log with each committed entry appended, in commit order ----

  ghost predicate OnlyLogs(s: State) {
    forall id :: id in s.calls ==> Appends(s.calls[id].job)
  }

  lemma {:induction false} AlwaysOnlyLogs(v: Vault, t: Trace)
    requires LogRun(v, t)
    ensures OnlyLogs(t.state)
  {
    if t.More? {
      AlwaysOnlyLogs(v, t.before);
    }
  }

  lemma LogAppendAppends(v: Vault, job: Job, clock: Clock, cell: Option<Version>, text: Text, reply: Reply)
    requires Appends(job) && Decide(v.schema, v.key, job, clock, TextOf(cell)) == Put(text, reply)
    ensures text.Note? && (job.LogAppend? ==> reply.Entry?)
    ensures StripNewlines(text.body) == AppendOne(LogText(cell), Added(job, reply))
  {
    DecisionIsRight(v.schema, v.key, job, clock, TextOf(cell));
    var was := if cell.Some? then cell.value.text.body else "";
    AppendIgnoresLeadingNewlines(was, Added(job, reply));
    OpeningExtends(was, Added(job, reply));
  }

  lemma CommitAppends(v: Vault, t: Trace)
    requires LogRun(v, t) && t.More? && t.event.Commit?
    ensures var call := t.before.state.calls[t.event.id];
      && (call.job.LogAppend? ==> call.phase.reply.Entry?)
      && LogText(t.state.cell) == AppendOne(LogText(t.before.state.cell), AddedBy(call))
  {
    Linearizable(v, t);
    AlwaysOnlyLogs(v, t.before);
    var call := t.before.state.calls[t.event.id];
    LogAppendAppends(v, call.job, call.phase.clock, t.before.state.cell, t.state.cell.value.text, call.phase.reply);
  }

  function Start(t: Trace): State {
    if t.First? then t.state else Start(t.before)
  }

  /** However the calls interleave, the note is the starting text with the entries and contents of the calls that succeeded appended
      one by one in commit order. */
  lemma {:induction false} LogIsEveryCommittedEntry(v: Vault, t: Trace)
    requires LogRun(v, t)
    ensures LogText(t.state.cell) == AppendAll(LogText(Start(t).cell), Entries(v, t))
  {
    if t.More? {
      LogIsEveryCommittedEntry(v, t.before);
      if t.event.Commit? {
        CommitAppends(v, t);
        assert Entries(v, t)[..|Entries(v, t.before)|] == Entries(v, t.before);
      } else {
        Linearizable(v, t);
      }
    }
  }

  /** How many entries had been committed when call `id` committed its own. */
  ghost function PlaceOf(v: Vault, t: Trace, id: nat): nat
    requires Run(v, t)
  {
    if t.First? then 0
    else if t.event == Commit(id) then |Entries(v, t.before)| else PlaceOf(v, t.before, id)
  }

  /** Each call that reports success put exactly the entry it reports, or the content it was given, into the note, once,
      in its place in commit order; a call without success put nothing. */
  lemma {:induction false} ReportedEntryIsStored(v: Vault, t: Trace, id: nat)
    requires LogRun(v, t)
    ensures Commits(t, id) == if Succeeded(t.state, id) then 1 else 0
    ensures Succeeded(t.state, id) ==>
              && PlaceOf(v, t, id) < |Entries(v, t)|
              && Added(t.state.calls[id].job, t.state.calls[id].phase.outcome.reply) == Entries(v, t)[PlaceOf(v, t, id)]
              && (t.state.calls[id].job.LogAppend? ==> t.state.calls[id].phase.outcome.reply.Entry?)
  {
    OneCommitPerSuccess(v, t, id);
    if t.More? {
      ReportedEntryIsStored(v, t.before, id);
      if t.event.Commit? {
        CommitAppends(v, t);
      }
    }
  }

  /** Two successful calls have two places: no entry is counted for two calls. */
  lemma {:induction false} PlacesDiffer(v: Vault, t: Trace, id: nat, other: nat)
    requires LogRun(v, t) && Succeeded(t.state, id) && Succeeded(t.state, other) && id != other
    ensures PlaceOf(v, t, id) != PlaceOf(v, t, other)
  {
    ReportedEntryIsStored(v, t.before, id);
    ReportedEntryIsStored(v, t.before, other);
    if t.event != Commit(id) && t.event != Commit(other) {
      PlacesDiffer(v, t.before, id, other);
    }
  }

  /** Every entry of the log belongs to a call that reports success. */
  lemma {:induction false} EveryEntryIsReported(v: Vault, t: Trace, place: nat) returns (id: nat)
    requires LogRun(v, t) && place < |Entries(v, t)|
    ensures Succeeded(t.state, id) && PlaceOf(v, t, id) == place
  {
    if place < |Entries(v, t.before)| {
      id := EveryEntryIsReported(v, t.before, place);
      OneCommitPerSuccess(v, t, id);
      OneCommitPerSuccess(v, t.before, id);
    } else {
      id := t.event.id;
    }
  }

  // ---- when nothing of the entries is lost to stripping ----

  /** The starting lines and then every entry whole. */
  function Whole(log: string, entries: seq<string>): string {
    if entries == [] then Opening(log)
    else Whole(log, entries[..|entries| - 1]) + entries[|entries| - 1] + "\n"
  }

  /** An entry that a later append leaves alone: not empty, and not ending in white space. */
  predicate Firm(entry: string) {
    entry != "" && !IsSpace(entry[|entry| - 1])
  }

  /** Every entry but the last is firm, and the first one of an empty log does not start with a newline. */
  predicate Kept(log: string, entries: seq<string>) {
    && (forall i :: 0 <= i < |entries| - 1 ==> Firm(entries[i]))
    && (Blank(log) && entries != [] ==> entries[0] != "" && entries[0][0] != '\n')
  }

  /** A log that ends in a line with text on it. */
  predicate Closed(log: string) {
    |log| >= 2 && log[|log| - 1] == '\n' && !IsSpace(log[|log| - 2])
  }

  lemma RStripLast(log: string)
    requires log != "" && IsSpace(log[|log| - 1])
    ensures RStrip(log) == RStrip(log[..|log| - 1])
    ensures Closed(log) ==> RStrip(log) == log[..|log| - 1]
    ensures log[|log| - 1] == '\n' && !Closed(log) ==> |RStrip(log)| < |log| - 1 || log == "\n"
  {
  }

  lemma AppendToText(log: string, entry: string)
    requires !Blank(log) && StripNewlines(log) == log
    ensures AppendOne(log, entry) == RStrip(log) + "\n" + entry + "\n"
  {
    assert Extended(log, entry)[0] == RStrip(log)[0] == log[0];
  }

  lemma AppendToLines(log: string, entry: string)
    requires StripNewlines(log) == log && (log == "" || log[|log| - 1] == '\n')
    ensures |AppendOne(log, entry)| <= |log| + |entry| + 1
    ensures Closed(log) ==> AppendOne(log, entry) == log + entry + "\n"
    ensures log != "" && !Closed(log) ==> |AppendOne(log, entry)| < |log| + |entry| + 1
  {
    if log != "" {
      RStripLast(log);
      if !Blank(log) {
        AppendToText(log, entry);
      }
      if Closed(log) {
        assert log == log[..|log| - 1] + "\n";
      }
    }
  }

  lemma ExtendedEnds(body: string, entry: string)
    ensures EndsWith(Extended(body, entry), "\n")
  {
    var head := if Blank(body) then entry else RStrip(body) + "\n" + entry;
    assert Extended(body, entry) == head + "\n";
  }

  lemma AppendedShape(log: string, entry: string)
    ensures var r := AppendOne(log, entry); StripNewlines(r) == r && (r == "" || r[|r| - 1] == '\n')
  {
    ExtendedEnds(log, entry);
    EndKept(Extended(log, entry));
  }

  lemma EndKept(s: string)
    requires EndsWith(s, "\n")
    ensures var r := StripNewlines(s); StripNewlines(r) == r && (r == "" || r[|r| - 1] == '\n')
  {
    assert s[|s| - 1] == s[|s| - 1..][0];
  }

  lemma FirstEntry(log: string, entry: string)
    requires StripNewlines(log) == log
    ensures |AppendOne(log, entry)| <= |Opening(log) + entry + "\n"|
    ensures AppendOne(log, entry) == Opening(log) + entry + "\n" <==> Kept(log, [entry])
    ensures AppendOne(log, entry) != Opening(log) + entry + "\n" ==>
              |AppendOne(log, entry)| < |Opening(log) + entry + "\n"|
  {
    if !Blank(log) {
      AppendToText(log, entry);
    } else {
      assert Opening(log) + entry + "\n" == entry + "\n";
    }
  }

  lemma KeptSplit(log: string, entries: seq<string>)
    requires |entries| >= 2
    ensures Kept(log, entries) <==> Kept(log, entries[..|entries| - 1]) && Firm(entries[|entries| - 2])
  {
    var prefix := entries[..|entries| - 1];
    assert forall i :: 0 <= i < |prefix| ==> prefix[i] == entries[i];
  }

  lemma {:induction false} WholeEnd(log: string, entries: seq<string>)
    requires entries != []
    ensures Whole(log, entries) != "" && Whole(log, entries)[|Whole(log, entries)| - 1] == '\n'
    ensures Closed(Whole(log, entries)) <==> Firm(entries[|entries| - 1])
  {
    var n := |entries| - 1;
    if entries[n] == "" && n > 0 {
      WholeEnd(log, entries[..n]);
    }
  }

  lemma {:induction false} AppendAllShape(log: string, entries: seq<string>)
    requires StripNewlines(log) == log
    ensures var r := AppendAll(log, entries);
            StripNewlines(r) == r && (entries == [] || r == "" || r[|r| - 1] == '\n')
  {
    if entries != [] {
      AppendAllShape(log, entries[..|entries| - 1]);
      AppendedShape(AppendAll(log, entries[..|entries| - 1]), entries[|entries| - 1]);
    }
  }

  lemma NextEntry(before: string, lines: string, entry: string, kept: bool, firm: bool)
    requires StripNewlines(before) == before && (before == "" || before[|before| - 1] == '\n')
    requires lines != "" && (before == lines <==> kept) && (!kept ==> |before| < |lines|)
    requires Closed(lines) <==> firm
    ensures AppendOne(before, entry) == lines + entry + "\n" <==> kept && firm
    ensures !(kept && firm) ==> |AppendOne(before, entry)| < |lines + entry + "\n"|
  {
    AppendToLines(before, entry);
  }

  lemma Unfolded(log: string, entries: seq<string>, prefix: seq<string>, entry: string)
    requires entries == prefix + [entry]
    ensures AppendAll(log, entries) == AppendOne(AppendAll(log, prefix), entry)
    ensures Whole(log, entries) == Whole(log, prefix) + entry + "\n"
  {
    assert entries[..|entries| - 1] == prefix;
  }

  /** The log holds its starting lines and then every entry whole, exactly when each entry but the last is firm and,
      in an empty log, the first does not begin with a newline; otherwise characters are missing from it. */
  lemma {:induction false} NothingIsStripped(log: string, entries: seq<string>)
    requires entries != [] && StripNewlines(log) == log
    ensures AppendAll(log, entries) == Whole(log, entries) <==> Kept(log, entries)
    ensures !Kept(log, entries) ==> |AppendAll(log, entries)| < |Whole(log, entries)|
  {
    var n := |entries| - 1;
    var entry, prefix := entries[n], entries[..n];
    assert entries == prefix + [entry];
    Unfolded(log, entries, prefix, entry);
    var before, lines := AppendAll(log, prefix), Whole(log, prefix);
    if n == 0 {
      FirstEntry(log, entry);
    } else {
      NothingIsStripped(log, prefix);
      KeptSplit(log, entries);
      NextFits(log, prefix, entry);
    }
  }

  lemma NextFits(log: string, prefix: seq<string>, entry: string)
    requires prefix != [] && StripNewlines(log) == log
    requires AppendAll(log, prefix) == Whole(log, prefix) <==> Kept(log, prefix)
    requires !Kept(log, prefix) ==> |AppendAll(log, prefix)| < |Whole(log, prefix)|
    ensures var joined, firm := Whole(log, prefix) + entry + "\n", Firm(prefix[|prefix| - 1]);
            && (AppendOne(AppendAll(log, prefix), entry) == joined <==> Kept(log, prefix) && firm)
            && (!(Kept(log, prefix) && firm) ==> |AppendOne(AppendAll(log, prefix), entry)| < |joined|)
  {
    WholeEnd(log, prefix);
    AppendAllShape(log, prefix);
    NextEntry(AppendAll(log, prefix), Whole(log, prefix), entry, Kept(log, prefix), Firm(prefix[|prefix| - 1]));
  }

  /** Over any run of interleaved appends the note holds its starting lines and then everything that was appended, whole
      and in commit order, exactly when each entry but the last is firm. */
  lemma RunKeepsEntriesWhole(v: Vault, t: Trace)
    requires LogRun(v, t) && Entries(v, t) != []
    ensures LogText(t.state.cell) == Whole(LogText(Start(t).cell), Entries(v, t)) <==>
            Kept(LogText(Start(t).cell), Entries(v, t))
  {
    LogIsEveryCommittedEntry(v, t);
    NothingIsStripped(LogText(Start(t).cell), Entries(v, t));
  }
}
