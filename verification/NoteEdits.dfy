/** What each note tool promises of the note it writes, said of the note before and after and not by the functions that
    make it (mindin/notes.py:121-133, 175-202, 235-258, 301-319, 336-383, mindin/tasks.py:147-186). */
module NoteEdits {
  import opened Texts
  import opened NoteTools
  import opened Optimistic

  function Value(front: Front, name: string): Option<string> {
    if name in front.fields then Some(front.fields[name]) else None
  }

  /** Two bodies that differ in leading newlines at most, which every dump rewrites. */
  predicate SameText(body: string, other: string) {
    StripNewlines(body) == StripNewlines(other)
  }

  /** The day of the write in `updated`, a date kept or set to that day, and every other field but those named as it
      was. */
  ghost predicate Redated(was: Front, now: Front, clock: Clock, named: set<string>) {
    && Value(now, "updated") == Some(clock.today)
    && Value(now, "date") == (if Value(was, "date") in {None, Some("")} then Some(clock.today) else Value(was, "date"))
    && forall name :: name !in named + {"updated", "date"} ==> Value(now, name) == Value(was, name)
  }

  /** The text's own lines, closed with a newline. */
  function Opening(text: string): string {
    if Blank(text) then "" else RStrip(text) + "\n"
  }

  /** The old text without its trailing white space, and then the new content whole on a line of its own. */
  predicate AppendedTo(was: string, content: string, now: string) {
    SameText(now, Opening(was) + content + "\n")
  }

  /** A field set as asked when something is asked, and otherwise left. */
  predicate Asked(was: Front, now: Front, name: string, asked: string) {
    Value(now, name) == if asked == "" then Value(was, name) else Some(asked)
  }

  predicate IsLinkTo(link: string, name: string) {
    StartsWith(link, "[[") && link in {Strip(name), "[[" + Strip(name) + "]]"}
  }

  /** The caller's note, with the claim of the note that was there. */
  ghost predicate Written(front: Front, body: string, clock: Clock, was: Option<Text>, now: Text)
    requires now.Note?
  {
    && Redated(front, now.front, clock, {}) && SameText(now.body, body)
    && now.front.claim == (if ClaimIn(was).Some? then Mapping(ClaimIn(was).value) else Absent)
  }

  ghost predicate StatusSet(was: Text, job: Job, clock: Clock, now: Text)
    requires was.Note? && now.Note? && job.SetStatus?
  {
    && Redated(was.front, now.front, clock, {"status", "priority", "source"}) && SameText(now.body, was.body)
    && Value(now.front, "status") == Some(job.status)
    && Asked(was.front, now.front, "priority", job.priority) && Asked(was.front, now.front, "source", job.source)
    && now.front.claim == if job.status == BACKLOG then Absent else was.front.claim
  }

  predicate DashFor(shown: string, asked: Option<string>) {
    if asked in {None, Some("")} then shown == "-" else Some(shown) == asked
  }

  /** The entry of a log line: a dash stands for what is missing, and the area is the one the log names. */
  ghost predicate IsEntry(schema: Schema, front: Front, job: Job, clock: Clock, entry: string)
    requires job.LogAppend?
  {
    exists commits, branch, area :: entry == schema.logEntry(clock.today, job.line, commits, branch, area)
      && DashFor(commits, Some(job.commits)) && DashFor(branch, Some(job.branch)) && DashFor(area, Value(front, "area"))
  }

  /** One more entry, made of what was asked and of the area that the log then names. */
  ghost predicate Logged(schema: Schema, was: Option<Text>, job: Job, clock: Clock, now: Text, entry: string)
    requires (was.Some? ==> was.value.Note?) && now.Note? && job.LogAppend?
  {
    && Value(now.front, "updated") == Some(clock.today)
    && (job.area != "" || was.None? ==>
          Value(now.front, "area").Some?
          && IsLinkTo(now.front.fields["area"], if job.area != "" then job.area else job.repo))
    && AppendedTo(if was.Some? then was.value.body else "", entry, now.body)
    && IsEntry(schema, now.front, job, clock, entry)
    && if was.Some? then
         && now.front.claim == was.value.front.claim
         && (job.area == "" ==> Value(now.front, "area") == Value(was.value.front, "area"))
         && forall name :: name !in {"updated", "area"} ==> Value(now.front, name) == Value(was.value.front, name)
       else
         && Value(now.front, "kind") == Some("log") && Value(now.front, "status") == Some("active")
         && Value(now.front, "date") == Some(clock.today) && now.front.claim.Absent?
  }

  /** A claim in the name of the caller, over no claim or his own unless forced, and nothing else changed. */
  ghost predicate Claimed(was: Text, job: Job, clock: Clock, now: Text, claim: Claim)
    requires was.Note? && now.Note? && job.ClaimNote?
  {
    var held := ClaimFields(was.front.claim);
    && Redated(was.front, now.front, clock, {}) && SameText(now.body, was.body)
    && now.front.claim == Mapping(claim)
    && claim.machine == job.machine != "" && claim.task == job.task != "" && claim.repo == job.repo
    && (held.Some? && held.value.machine != job.machine ==> job.force)
    && if held.Some? && held.value.machine == job.machine && held.value.task == job.task
       then claim.since == held.value.since else claim.since == clock.stamp
  }

  /** No claim any more, of one whose holder was named, or of nobody in particular; and nothing else changed. */
  ghost predicate Released(was: Text, holder: Option<string>, clock: Clock, now: Text)
    requires was.Note? && now.Note?
  {
    var held := ClaimFields(was.front.claim);
    && Redated(was.front, now.front, clock, {}) && SameText(now.body, was.body)
    && !was.front.claim.Absent? && now.front.claim.Absent?
    && (held.Some? && holder.Some? ==> held.value.machine == holder.value)
  }

  /** The note with the status of its closing and without a claim. */
  ghost predicate ClosedAs(was: Text, how: How, clock: Clock, now: Text)
    requires was.Note? && now.Note?
  {
    && SameText(now.body, was.body) && now.front.claim.Absent?
    && match how
       case Superseded(target) =>
         && Redated(was.front, now.front, clock, {"status", "superseded_by"})
         && Value(now.front, "status") == Some("superseded")
         && Value(now.front, "superseded_by") == Some("[[" + target + "]]")
       case Settled(status) =>
         && Redated(was.front, now.front, clock, {"status"})
         && Value(now.front, "status") == Some(if status == "" then "complete" else status)
  }

  predicate IsRead(text: Option<Text>) {
    text.Some? && text.value.Note?
  }

  /** What a tool means to make of the note it reads. */
  ghost predicate Means(schema: Schema, job: Job, clock: Clock, was: Option<Text>, now: Text, reply: Reply) {
    && now.Note?
    && match job
       case WriteNote(front, body) => reply.Nothing? && Written(front, body, clock, was, now)
       case WriteOver(front, body, _) => reply.Nothing? && Written(front, body, clock, was, now)
       case Append(content) =>
         && IsRead(was) && reply.Nothing? && Redated(was.value.front, now.front, clock, {})
         && now.front.claim == was.value.front.claim && AppendedTo(was.value.body, content, now.body)
       case SetStatus(_, _, _) => IsRead(was) && reply.Nothing? && StatusSet(was.value, job, clock, now)
       case LogAppend(_, _, _, _, _) =>
         (was.Some? ==> was.value.Note?) && reply.Entry? && Logged(schema, was, job, clock, now, reply.entry)
       case ClaimNote(_, _, _, _) => IsRead(was) && reply.Took? && Claimed(was.value, job, clock, now, reply.claim)
       case ReleaseNote(holder) => IsRead(was) && reply.NoClaim? && Released(was.value, holder, clock, now)
       case CloseInPlace(how) => IsRead(was) && reply.Nothing? && ClosedAs(was.value, how, clock, now)
  }

  /** A job done: the note means what the job asks, and the schema accepts it; log entries are not checked against it. */
  ghost predicate Did(schema: Schema, key: Key, job: Job, clock: Clock, was: Option<Text>, now: Text, reply: Reply) {
    Means(schema, job, clock, was, now, reply) && (!job.LogAppend? ==> schema.accepts(key, now.front))
  }

  /** Why a tool left the note alone: another machine holds it, or nobody does. */
  predicate LeftAlone(job: Job, was: Option<Text>, reply: Reply) {
    && IsRead(was)
    && match reply
       case Held(claim) =>
         && ClaimIn(was) == Some(claim)
         && (job.ClaimNote? || job.ReleaseNote?)
         && (job.ClaimNote? ==> claim.machine != job.machine && !job.force)
         && (job.ReleaseNote? ==> job.holder.Some? && claim.machine != job.holder.value)
       case NoClaim => job.ReleaseNote? && was.value.front.claim.Absent?
       case _ => false
  }

  /** Why a tool failed: no note, one that cannot be read, a claim in nobody's name, or a schema that refuses exactly
      what the tool means to write. */
  ghost predicate FailedRightly(schema: Schema, key: Key, job: Job, clock: Clock, was: Option<Text>, error: Error) {
    match error
    case NotFound => was.None? && !job.WriteNote? && !job.WriteOver? && !job.LogAppend?
    case Unparsable => was.Some? && was.value.Broken? && !job.WriteNote? && !job.WriteOver?
    case NoName => job.ClaimNote? && (job.machine == "" || job.task == "")
    case Invalid =>
      !job.LogAppend?
      && exists now, reply :: Means(schema, job, clock, was, now, reply) && !schema.accepts(key, now.front)
  }

  lemma DumpIsSameText(body: string)
    ensures SameText("\n" + StripNewlines(body), body)
  {
    assert ("\n" + StripNewlines(body))[1..] == StripNewlines(body);
  }

  lemma DatedIsRedated(was: Front, front: Front, clock: Clock, named: set<string>)
    requires Value(was, "date") == Value(front, "date")
    requires forall name :: name !in named + {"updated", "date"} ==> Value(front, name) == Value(was, name)
    ensures Redated(was, WithDates(front, clock), clock, named)
    ensures forall name :: name !in {"updated", "date"} ==> Value(WithDates(front, clock), name) == Value(front, name)
    ensures WithDates(front, clock).claim == front.claim
  {
  }

  /** What a decision may be. */
  ghost predicate DecidedRightly(schema: Schema, key: Key, job: Job, clock: Clock, was: Option<Text>, d: Decision) {
    match d
    case Put(text, reply) => Did(schema, key, job, clock, was, text, reply)
    case Leave(reply) => LeftAlone(job, was, reply)
    case Raise(error) => FailedRightly(schema, key, job, clock, was, error)
  }

  lemma StampedIsRight(schema: Schema, key: Key, job: Job, clock: Clock, was: Option<Text>, front: Front, body: string,
                       reply: Reply)
    requires !job.LogAppend? && Means(schema, job, clock, was, Dump(WithDates(front, clock), body), reply)
    ensures DecidedRightly(schema, key, job, clock, was, Stamped(schema, key, front, body, clock, reply))
  {
  }

  lemma WriteIsRight(schema: Schema, key: Key, job: Job, clock: Clock, was: Option<Text>)
    requires job.WriteNote? || job.WriteOver?
    ensures DecidedRightly(schema, key, job, clock, was, Decide(schema, key, job, clock, was))
  {
    var front := WithClaim(job.front, ClaimIn(was));
    DumpIsSameText(job.body);
    DatedIsRedated(job.front, front, clock, {});
    StampedIsRight(schema, key, job, clock, was, front, job.body, Nothing);
  }

  lemma AppendIsRight(schema: Schema, key: Key, job: Job, clock: Clock, was: Text)
    requires job.Append? && was.Note?
    ensures DecidedRightly(schema, key, job, clock, Some(was), Decide(schema, key, job, clock, Some(was)))
  {
    var body := Extended(was.body, job.content);
    AppendingAppends(was.body, job.content);
    DatedIsRedated(was.front, was.front, clock, {});
    StampedIsRight(schema, key, job, clock, Some(was), was.front, body, Nothing);
  }

  lemma StatusIsRight(schema: Schema, key: Key, job: Job, clock: Clock, was: Text)
    requires job.SetStatus? && was.Note?
    ensures DecidedRightly(schema, key, job, clock, Some(was), Decide(schema, key, job, clock, Some(was)))
  {
    var front := StatusFront(was.front, job);
    DumpIsSameText(was.body);
    DatedIsRedated(was.front, front, clock, {"status", "priority", "source"});
    StampedIsRight(schema, key, job, clock, Some(was), front, was.body, Nothing);
  }

  lemma ClosingIsRight(schema: Schema, key: Key, how: How, clock: Clock, was: Text)
    requires was.Note?
    ensures DecidedRightly(schema, key, CloseInPlace(how), clock, Some(was),
                           Stamped(schema, key, ClosedFront(was.front, how), was.body, clock, Nothing))
  {
    var front := ClosedFront(was.front, how);
    DumpIsSameText(was.body);
    DatedIsRedated(was.front, front, clock, if how.Superseded? then {"status", "superseded_by"} else {"status"});
    StampedIsRight(schema, key, CloseInPlace(how), clock, Some(was), front, was.body, Nothing);
  }

  lemma ClaimIsRight(schema: Schema, key: Key, job: Job, clock: Clock, was: Text)
    requires job.ClaimNote? && was.Note?
    ensures DecidedRightly(schema, key, job, clock, Some(was), Decide(schema, key, job, clock, Some(was)))
  {
    var held := ClaimFields(was.front.claim);
    var taken := held.None? || held.value.machine == job.machine || job.force;
    if job.machine != "" && job.task != "" && taken {
      var claim := ClaimTaken(held, job, clock);
      var front := was.front.(claim := Mapping(claim));
      DumpIsSameText(was.body);
      DatedIsRedated(was.front, front, clock, {});
      assert Claimed(was, job, clock, Dump(WithDates(front, clock), was.body), claim);
      StampedIsRight(schema, key, job, clock, Some(was), front, was.body, Took(claim));
    }
  }

  lemma ReleaseIsRight(schema: Schema, key: Key, job: Job, clock: Clock, was: Text)
    requires job.ReleaseNote? && was.Note?
    ensures DecidedRightly(schema, key, job, clock, Some(was), Decide(schema, key, job, clock, Some(was)))
  {
    var held := ClaimFields(was.front.claim);
    if !was.front.claim.Absent? && !(held.Some? && job.holder.Some? && held.value.machine != job.holder.value) {
      var front := was.front.(claim := Absent);
      DumpIsSameText(was.body);
      DatedIsRedated(was.front, front, clock, {});
      assert Released(was, job.holder, clock, Dump(WithDates(front, clock), was.body));
      StampedIsRight(schema, key, job, clock, Some(was), front, was.body, NoClaim);
    }
  }

  lemma OpeningExtends(was: string, content: string)
    ensures Opening(was) + content + "\n" == Extended(was, content)
  {
    assert "" + content == content;
  }

  lemma AppendingAppends(was: string, content: string)
    ensures AppendedTo(was, content, "\n" + StripNewlines(Extended(was, content)))
  {
    OpeningExtends(was, content);
    DumpIsSameText(Extended(was, content));
  }

  lemma LogFields(job: Job, clock: Clock, was: Front)
    requires job.LogAppend?
    ensures var front := LogFront(was, job, clock);
      && Value(front, "updated") == Some(clock.today) && front.claim == was.claim
      && (if job.area == "" then Value(front, "area") == Value(was, "area")
          else Value(front, "area").Some? && IsLinkTo(front.fields["area"], job.area))
      && forall name :: name !in {"updated", "area"} ==> Value(front, name) == Value(was, name)
  {
  }

  lemma OldLogIsRight(schema: Schema, key: Key, job: Job, clock: Clock, was: Text)
    requires job.LogAppend? && was.Note?
    ensures DecidedRightly(schema, key, job, clock, Some(was), Decide(schema, key, job, clock, Some(was)))
  {
    var front := LogFront(was.front, job, clock);
    var entry := LogEntry(schema, front, job, clock);
    AppendingAppends(was.body, entry);
    LogFields(job, clock, was.front);
    EntryIsMade(schema, front, job, clock);
    assert Logged(schema, Some(was), job, clock, Dump(front, Extended(was.body, entry)), entry);
  }

  lemma NewLogIsRight(schema: Schema, key: Key, job: Job, clock: Clock)
    requires job.LogAppend?
    ensures DecidedRightly(schema, key, job, clock, None, Decide(schema, key, job, clock, None))
  {
    var started := NewLog(job.repo, job.area, clock);
    var front := LogFront(started.front, job, clock);
    var entry := LogEntry(schema, front, job, clock);
    AppendingAppends("", entry);
    LogFields(job, clock, started.front);
    NewFields(job, clock);
    EntryIsMade(schema, front, job, clock);
    assert Logged(schema, None, job, clock, Dump(front, Extended("", entry)), entry);
  }

  lemma NewFields(job: Job, clock: Clock)
    requires job.LogAppend?
    ensures var front := NewLog(job.repo, job.area, clock).front;
      && Value(front, "kind") == Some("log") && Value(front, "status") == Some("active")
      && Value(front, "date") == Some(clock.today) && front.claim.Absent?
      && Value(front, "area").Some?
      && IsLinkTo(front.fields["area"], if job.area != "" then job.area else job.repo)
  {
  }

  lemma LogIsRight(schema: Schema, key: Key, job: Job, clock: Clock, was: Option<Text>)
    requires job.LogAppend? && (was.Some? ==> was.value.Note?)
    ensures DecidedRightly(schema, key, job, clock, was, Decide(schema, key, job, clock, was))
  {
    if was.Some? {
      OldLogIsRight(schema, key, job, clock, was.value);
    } else {
      NewLogIsRight(schema, key, job, clock);
    }
  }

  lemma EntryIsMade(schema: Schema, front: Front, job: Job, clock: Clock)
    requires job.LogAppend?
    ensures IsEntry(schema, front, job, clock, LogEntry(schema, front, job, clock))
  {
    var area := Field(front, "area", "-");
    assert LogEntry(schema, front, job, clock) ==
           schema.logEntry(clock.today, job.line, OrDash(job.commits), OrDash(job.branch), area);
  }

  /** Whatever a tool decides is right: the note it writes means what was asked, and it leaves the note alone or fails
      only for a reason. */
  lemma DecisionIsRight(schema: Schema, key: Key, job: Job, clock: Clock, was: Option<Text>)
    ensures DecidedRightly(schema, key, job, clock, was, Decide(schema, key, job, clock, was))
  {
    if job.WriteNote? || job.WriteOver? {
      WriteIsRight(schema, key, job, clock, was);
    } else if IsRead(was) {
      match job
      case Append(_) => AppendIsRight(schema, key, job, clock, was.value);
      case SetStatus(_, _, _) => StatusIsRight(schema, key, job, clock, was.value);
      case LogAppend(_, _, _, _, _) => LogIsRight(schema, key, job, clock, was);
      case ClaimNote(_, _, _, _) => ClaimIsRight(schema, key, job, clock, was.value);
      case ReleaseNote(_) => ReleaseIsRight(schema, key, job, clock, was.value);
      case CloseInPlace(how) => ClosingIsRight(schema, key, how, clock, was.value);
    } else if job.LogAppend? && was.None? {
      LogIsRight(schema, key, job, clock, was);
    }
  }

  lemma EndOutlastsNewlines(text: string, tail: string)
    requires text != "" && text[|text| - 1] != '\n'
    ensures EndsWith(StripNewlines(text + tail), tail)
  {
    var whole := text + tail;
    var r := StripNewlines(whole);
    NewlinesStripped(whole);
    assert whole[|text| - 1] != '\n';
    assert |r| > |tail| && r == whole[|whole| - |r|..];
  }

  lemma EndOfEnd(s: string, end: string, tail: string)
    requires EndsWith(s, end) && EndsWith(end, tail)
    ensures EndsWith(s, tail)
  {
    assert s[|s| - |tail|..] == end[|end| - |tail|..];
  }

  lemma AppendedText(text: string, content: string)
    requires text != "" && text[|text| - 1] != '\n'
    ensures EndsWith(StripNewlines(text + "\n" + content + "\n"), content + "\n")
  {
    var tail := "\n" + content + "\n";
    assert text + "\n" + content + "\n" == text + tail && tail[1..] == content + "\n";
    EndOutlastsNewlines(text, tail);
    EndOfEnd(StripNewlines(text + tail), tail, content + "\n");
  }

  lemma AppendedFirst(content: string)
    requires content != "" && content[0] != '\n'
    ensures EndsWith(StripNewlines("" + content + "\n"), content + "\n")
  {
    assert "" + content + "\n" == content + "\n" && (content + "\n")[0] != '\n';
  }

  lemma OpenedEnd(was: string, content: string)
    requires content != "" && content[0] != '\n'
    ensures EndsWith(StripNewlines(Opening(was) + content + "\n"), content + "\n")
  {
    if Blank(was) {
      AppendedFirst(content);
    } else {
      AppendedText(RStrip(was), content);
    }
  }

  lemma SameTextEnds(text: string, now: string, tail: string)
    requires SameText(now, text) && EndsWith(StripNewlines(text), tail)
    ensures EndsWith(now, tail)
  {
    NewlinesStripped(now);
    EndOfEnd(now, StripNewlines(now), tail);
  }

  /** Content that does not begin with a newline, appended to anything, is the end of the body. */
  lemma AppendedIsTheEnd(was: string, content: string, now: string)
    requires AppendedTo(was, content, now) && content != "" && content[0] != '\n'
    ensures EndsWith(now, content + "\n")
  {
    OpenedEnd(was, content);
    SameTextEnds(Opening(was) + content + "\n", now, content + "\n");
  }

  // ---- over the runs of any number of calls ----

  /** Every commit of every run does its job: the note it leaves is what was asked of the note that it replaced, and for
      a conditional write the caller's note with the claim the call had seen. */
  lemma CommitDoesItsJob(v: Vault, t: Trace)
    requires Run(v, t) && t.More? && t.event.Commit?
    ensures t.state.cell.Some?
    ensures var call := t.before.state.calls[t.event.id];
      var was := if call.job.WriteOver? then call.phase.seen else t.before.state.cell;
      Did(v.schema, v.key, call.job, call.phase.clock, TextOf(was), t.state.cell.value.text, call.phase.reply)
  {
    var call := t.before.state.calls[t.event.id];
    AlwaysComputed(v, t.before);
    DecisionIsRight(v.schema, v.key, call.job, call.phase.clock, TextOf(call.phase.seen));
  }

  /** A call that ends without a commit had its reason, at the moment it read the note. */
  lemma EndsForAReason(v: Vault, t: Trace)
    requires Run(v, t) && t.More? && t.event.Read?
    ensures var call, now := t.before.state.calls[t.event.id], t.state.calls[t.event.id];
      match now.phase
      case Finished(Left(reply)) => LeftAlone(call.job, TextOf(t.before.state.cell), reply)
      case Finished(Raised(error)) =>
        FailedRightly(v.schema, v.key, call.job, t.event.clock, TextOf(t.before.state.cell), error)
      case _ => true
  {
    DecisionIsRight(v.schema, v.key, t.before.state.calls[t.event.id].job, t.event.clock, TextOf(t.before.state.cell));
  }
}
