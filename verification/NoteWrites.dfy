/** The retry loops of the note tools, as loops: between any two calls into the store other processes may have written
    anything (mindin/notes.py:94-110, 407-449). */
module NoteWrites {
  import opened Texts
  import opened NoteTools
  import opened Optimistic
  import opened NoteEdits
  import opened Close
  import opened NoteKeys

  type Files = map<Key, Version>

  /** A write that took place: ours or another process's. */
  datatype Write = Write(mine: bool, before: Files, after: Files)

  function Cell(files: Files, key: Key): Option<Version> {
    if key in files then Some(files[key]) else None
  }

  /** The writes of this process. */
  function Mine(log: seq<Write>): seq<Write> {
    if log == [] then []
    else if log[|log| - 1].mine then Mine(log[..|log| - 1]) + [log[|log| - 1]]
    else Mine(log[..|log| - 1])
  }

  lemma MineAfter(log: seq<Write>, write: Write)
    ensures Mine(log + [write]) == if write.mine then Mine(log) + [write] else Mine(log)
  {
    assert (log + [write])[..|log|] == log;
  }

  /** One atomic `stored := change(stored)` of a note, for the note stored at that moment: what the job asks of it. */
  ghost predicate Changes(schema: Schema, key: Key, job: Job, write: Write, version: Version, reply: Reply) {
    && write.after == write.before[key := version]
    && exists clock :: Makes(schema, key, job, clock, Cell(write.before, key), version.text, reply)
                       && Did(schema, key, job, clock, TextOf(Cell(write.before, key)), version.text, reply)
  }

  /** What the tool makes of the note it is given, at some reading of the clock. */
  predicate Makes(schema: Schema, key: Key, job: Job, clock: Clock, current: Option<Version>, text: Text, reply: Reply) {
    Decide(schema, key, job, clock, TextOf(current)) == Put(text, reply)
  }

  /** What a call has done: one change if it reports one, and otherwise nothing. */
  ghost predicate Honest(schema: Schema, key: Key, job: Job, outcome: Outcome, mine: seq<Write>) {
    match outcome
    case Stored(version, reply) => |mine| == 1 && Changes(schema, key, job, mine[0], version, reply)
    case _ => mine == []
  }

  /** A new note under a name nobody had. */
  predicate Creates(key: Key, text: Text, write: Write) {
    && key !in write.before && key in write.after && write.after[key].text == text
    && write.after == write.before[key := write.after[key]]
  }

  datatype Added = Added(key: Key) | Refused | NoFreeName

  /** A conditional write that found another version than it expected. */
  datatype Loss = Loss(key: Key, expected: Expect)

  class NoteStore {
    const kind: Kind
    var files: Files
    var next: nat
    ghost var log: seq<Write>
    ghost var conflicts: seq<Loss>

    constructor (kind: Kind)
      ensures this.kind == kind && files == map[] && log == [] && conflicts == []
    {
      this.kind, files, next, log, conflicts := kind, map[], 0, [], [];
    }

    /** The writes of this process from some moment on. */
    ghost function Since(start: nat): seq<Write>
      reads this
    {
      if start <= |log| then Mine(log[start..]) else []
    }

    /** Whatever other processes do in the meantime. */
    method Others(ghost start: nat)
      requires start <= |log|
      modifies this
      ensures old(log) <= log && Since(start) == old(Since(start)) && conflicts == old(conflicts)
    {
      var now: Files := *;
      ghost var was := log[start..];
      log := log + [Write(false, files, now)];
      files := now;
      MineAfter(was, log[|log| - 1]);
      assert log[start..] == was + [log[|log| - 1]];
    }

    /** Removes a note, if it is there, and if `expected` says so at the version it names. */
    method Remove(key: Key, expected: Option<Version>, ghost start: nat) returns (removed: bool)
      requires start <= |log|
      modifies this
      ensures old(log) <= log
      ensures removed <==> key in old(files) && (expected.Some? ==> old(files)[key] == expected.value)
      ensures removed ==> files == old(files) - {key}
      ensures removed ==> Since(start) == old(Since(start)) + [Write(true, old(files), files)]
      ensures !removed ==> files == old(files) && Since(start) == old(Since(start))
      ensures conflicts == if !removed && expected.Some? then old(conflicts) + [Loss(key, Exactly(expected.value))]
                           else old(conflicts)
    {
      if key !in files || (expected.Some? && files[key] != expected.value) {
        if expected.Some? {
          conflicts := conflicts + [Loss(key, Exactly(expected.value))];
        }
        return false;
      }
      ghost var was := log[start..];
      log := log + [Write(true, files, files - {key})];
      files := files - {key};
      MineAfter(was, log[|log| - 1]);
      assert log[start..] == was + [log[|log| - 1]];
      removed := true;
    }

    /** A conditional write, atomic under the store's lock. */
    method PutChecked(key: Key, text: Text, expected: Expect, ghost start: nat) returns (stored: Option<Version>)
      requires start <= |log|
      modifies this
      ensures old(log) <= log && (stored.Some? <==> Matches(Cell(old(files), key), expected))
      ensures stored.Some? ==> stored.value.text == text && files == old(files)[key := stored.value]
      ensures stored.Some? ==> Since(start) == old(Since(start)) + [Write(true, old(files), files)]
      ensures stored.None? ==> files == old(files) && Since(start) == old(Since(start))
      ensures conflicts == if stored.None? then old(conflicts) + [Loss(key, expected)] else old(conflicts)
    {
      if !Matches(Cell(files, key), expected) {
        conflicts := conflicts + [Loss(key, expected)];
        return None;
      }
      var version := Version(text, if kind.ContentHash? then 0 else next);
      next := next + 1;
      ghost var was := log[start..];
      log := log + [Write(true, files, files[key := version])];
      files := files[key := version];
      stored := Some(version);
      MineAfter(was, log[|log| - 1]);
      assert log[start..] == was + [log[|log| - 1]];
    }
  }

  /** So many conflicts more. */
  predicate Lost(before: seq<Loss>, after: seq<Loss>, count: nat) {
    before <= after && |after| == |before| + count
  }

  /** So many conflicts more, each at one of the keys. */
  predicate LostEach(before: seq<Loss>, after: seq<Loss>, count: nat, keys: set<Key>) {
    Lost(before, after, count) && forall i :: |before| <= i < |after| ==> after[i].key in keys
  }

  /** So many conflicts more, under "must not exist" and each at another of the names. */
  predicate LostNames(before: seq<Loss>, after: seq<Loss>, count: nat, names: set<Key>) {
    && LostEach(before, after, count, names) && |names| == count
    && forall i :: |before| <= i < |after| ==> after[i].expected.MustNotExist?
  }

  ghost predicate AllTried(folder: Key, stem: Key, keys: set<Key>) {
    forall key :: key in keys ==> exists number: nat :: number >= 1 && key == Candidate(folder, stem, number)
  }

  lemma NameLost(before: seq<Loss>, after: seq<Loss>, count: nat, names: set<Key>, key: Key)
    requires LostNames(before, after, count, names) && key !in names
    ensures LostNames(before, after + [Loss(key, MustNotExist)], count + 1, names + {key})
  {
    var more := after + [Loss(key, MustNotExist)];
    forall i | |before| <= i < |more| ensures more[i].key in names + {key} && more[i].expected.MustNotExist? {
      assert i < |after| ==> more[i] == after[i];
    }
  }

  lemma OneMoreTried(folder: Key, stem: Key, taken: set<Key>, keys: set<Key>, key: Key)
    requires AllTried(folder, stem, keys) && FirstFree(taken, folder, stem, key)
    ensures AllTried(folder, stem, keys + {key})
  {
  }

  /** As many different names as there are attempts were found taken. */
  ghost predicate OutOfNames(folder: Key, stem: Key, before: seq<Loss>, after: seq<Loss>) {
    exists names: set<Key> :: LostNames(before, after, REWRITE_RETRIES + 1, names) && AllTried(folder, stem, names)
  }

  method ReadClock() returns (clock: Clock) {
    clock := *;
  }

  /** `close` at work: nothing so far but copies made and taken back. */
  ghost predicate Undone(mine: seq<Write>) {
    mine == [] || (|mine| >= 2 && Undone(mine[..|mine| - 2]) && Undoes(mine[|mine| - 2], mine[|mine| - 1]))
  }

  ghost predicate Undoes(copied: Write, undone: Write) {
    exists dest :: dest !in copied.before && dest in copied.after && copied.after - {dest} == copied.before
      && dest in undone.before && undone.after == undone.before - {dest}
  }

  lemma UndoneAfter(mine: seq<Write>, copied: Write, undone: Write)
    requires Undone(mine) && Undoes(copied, undone)
    ensures Undone(mine + [copied] + [undone])
  {
    var all := mine + [copied] + [undone];
    assert all[..|all| - 2] == mine;
  }

  /** The writes of a close that succeeded: in the archive one write over the version read, elsewhere a copy under a name
      that no note had, and the removal of exactly the version that was read. */
  ghost predicate ClosedBy(v: Close.Vault, path: Key, how: How, seen: Version, dest: Key, last: seq<Write>) {
    if InArchive(v, path) then
      && |last| == 1 && dest == path && path in last[0].after
      && Cell(last[0].before, path) == Some(seen) && ClosesTo(v, seen, how, path, last[0].after[path].text)
      && last[0].after == last[0].before[path := last[0].after[path]]
    else
      && |last| == 2 && dest !in last[0].before && dest in last[0].after
      && last[0].after == last[0].before[dest := last[0].after[dest]]
      && ClosesTo(v, seen, how, dest, last[0].after[dest].text)
      && Cell(last[1].before, path) == Some(seen) && last[1].after == last[1].before - {path}
  }

  datatype Closing = ClosedAt(dest: Key, seen: Version) | NoNote | Unreadable | NotValid | CopyGone | KeptChanging

  /** `rewrite`: reads, computes, and writes only over the version it read, again on a conflict. A success is one atomic
      change of the stored note; every other outcome has written nothing. */
  method Rewrite(store: NoteStore, schema: Schema, key: Key, job: Job) returns (outcome: Outcome)
    requires !job.WriteOver?
    modifies store
    ensures old(store.log) <= store.log
    ensures Honest(schema, key, job, outcome, store.Since(|old(store.log)|))
    ensures outcome.GaveUp? ==> LostEach(old(store.conflicts), store.conflicts, Attempts(job), {key})
  {
    ghost var start := |store.log|;
    for attempt := 0 to Attempts(job)
      invariant old(store.log) <= store.log && store.Since(start) == []
      invariant LostEach(old(store.conflicts), store.conflicts, attempt, {key})
    {
      store.Others(start);
      var seen := Cell(store.files, key);
      var clock := ReadClock();
      var decision := Decide(schema, key, job, clock, TextOf(seen));
      if decision.Leave? {
        return Left(decision.reply);
      }
      if decision.Raise? {
        return Outcome.Raised(decision.error);
      }
      store.Others(start);
      ghost var before := store.files;
      var stored :=
        store.PutChecked(key, decision.text, if seen.Some? then Exactly(seen.value) else MustNotExist, start);
      if stored.Some? {
        DecisionIsRight(schema, key, job, clock, TextOf(seen));
        assert Makes(schema, key, job, clock, Cell(before, key), stored.value.text, decision.reply);
        assert Changes(schema, key, job, Write(true, before, store.files), stored.value, decision.reply);
        assert store.Since(start) == [Write(true, before, store.files)];
        return Stored(stored.value, decision.reply);
      }
    }
    outcome := Outcome.GaveUp;
  }

  /** One note made where there was none, under one of the names tried, and nothing else written. */
  ghost predicate AddedOne(schema: Schema, front: Front, text: Text, folder: Key, stem: Key, key: Key, mine: seq<Write>) {
    && |mine| == 1 && Creates(key, text, mine[0])
    && NoteKey(key, false).Ok? && schema.accepts(key, front)
    && exists number: nat :: number >= 1 && key == Candidate(folder, stem, number)
  }

  /** `backlog_add`: a free name, and the note under "must not exist"; a name lost to another writer is not tried
      again. */
  method BacklogAdd(store: NoteStore, schema: Schema, front: Front, text: Text, folder: Key, stem: Key)
    returns (added: Added)
    modifies store
    ensures old(store.log) <= store.log
    ensures added.Added? ==> AddedOne(schema, front, text, folder, stem, added.key, store.Since(|old(store.log)|))
    ensures !added.Added? ==> store.Since(|old(store.log)|) == []
    ensures added.NoFreeName? ==> OutOfNames(folder, stem, old(store.conflicts), store.conflicts)
  {
    ghost var start := |store.log|;
    var lost: set<Key> := {};
    for attempt := 0 to REWRITE_RETRIES + 1
      invariant old(store.log) <= store.log && store.Since(start) == []
      invariant AllTried(folder, stem, lost) && LostNames(old(store.conflicts), store.conflicts, attempt, lost)
    {
      store.Others(start);
      var listed := set k | k in store.files && IsVaultKey(k);
      var key := FreeKey(folder, stem, listed, lost);
      if !NoteKey(key, false).Ok? || !schema.accepts(key, front) {
        return Refused;
      }
      store.Others(start);
      ghost var before := store.conflicts;
      var stored := store.PutChecked(key, text, MustNotExist, start);
      if stored.Some? {
        return Added(key);
      }
      NameLost(old(store.conflicts), before, attempt, lost, key);
      OneMoreTried(folder, stem, listed + lost, lost, key);
      lost := lost + {key};
    }
    added := NoFreeName;
  }

  /** What a close means to write, of the version it read; or why it cannot. */
  datatype Choice = Chosen(seen: Version, dest: Key, out: Text) | Not(closing: Closing)

  ghost predicate ChosenWell(v: Close.Vault, path: Key, how: How, choice: Choice) {
    match choice
    case Chosen(seen, dest, out) => ClosesTo(v, seen, how, dest, out) && (InArchive(v, path) ==> dest == path)
    case Not(closing) => closing.NoNote? || closing.Unreadable? || closing.NotValid?
  }

  /** Reads the note, picks a name and makes the closed text. */
  method Choose(store: NoteStore, v: Close.Vault, path: Key, how: How, lost: set<Key>, ghost start: nat)
    returns (choice: Choice)
    requires start <= |store.log|
    modifies store
    ensures old(store.log) <= store.log && store.Since(start) == old(store.Since(start))
    ensures store.conflicts == old(store.conflicts)
    ensures ChosenWell(v, path, how, choice)
  {
    store.Others(start);
    var seen := Cell(store.files, path);
    if seen.None? {
      return Not(NoNote);
    }
    if seen.value.text.Broken? {
      return Not(Unreadable);
    }
    var dest := path;
    if !InArchive(v, path) {
      store.Others(start);
      dest := FreeKey(v.archive.value, Stem(path), (set k | k in store.files && v.listed(k)), lost);
    }
    var clock := ReadClock();
    var out := Restated(v, dest, how, clock, seen.value.text);
    if !out.Put? {
      return Not(NotValid);
    }
    assert Restated(v, dest, how, clock, seen.value.text) == Put(out.text, Nothing);
    choice := Chosen(seen.value, dest, out.text);
  }

  /** What one attempt has written beyond what was written before it. */
  ghost predicate Attempted(v: Close.Vault, path: Key, how: How, closing: Closing, before: seq<Write>, mine: seq<Write>) {
    match closing
    case ClosedAt(dest, seen) => before <= mine && ClosedBy(v, path, how, seen, dest, mine[|before|..])
    case CopyGone => before <= mine && |mine| == |before| + 1
    case KeptChanging =>
      mine == before || (before <= mine && |mine| == |before| + 2 && Undoes(mine[|before|], mine[|before| + 1]))
    case _ => mine == before
  }

  /** In the archive: one write over the version that was read. */
  method CloseInPlace(store: NoteStore, v: Close.Vault, path: Key, ghost how: How, choice: Choice, ghost start: nat)
    returns (closing: Closing)
    requires start <= |store.log| && choice.Chosen? && ChosenWell(v, path, how, choice) && InArchive(v, path)
    modifies store
    ensures old(store.log) <= store.log
    ensures Attempted(v, path, how, closing, old(store.Since(start)), store.Since(start))
    ensures closing.KeptChanging? ==> Lost(old(store.conflicts), store.conflicts, 1)
  {
    store.Others(start);
    var stored := store.PutChecked(path, choice.out, Exactly(choice.seen), start);
    closing := if stored.Some? then ClosedAt(path, choice.seen) else KeptChanging;
  }

  /** Elsewhere: the copy under "must not exist". */
  method Copy(store: NoteStore, v: Close.Vault, path: Key, ghost how: How, choice: Choice, ghost start: nat)
    returns (copied: bool, ghost first: Write)
    requires start <= |store.log| && choice.Chosen? && ChosenWell(v, path, how, choice)
    modifies store
    ensures old(store.log) <= store.log
    ensures store.Since(start) == if copied then old(store.Since(start)) + [first] else old(store.Since(start))
    ensures Lost(old(store.conflicts), store.conflicts, if copied then 0 else 1)
    ensures copied ==> choice.dest !in first.before && choice.dest in first.after
    ensures copied ==> first.after == first.before[choice.dest := first.after[choice.dest]]
    ensures copied ==> ClosesTo(v, choice.seen, how, choice.dest, first.after[choice.dest].text)
  {
    store.Others(start);
    ghost var before := store.files;
    var stored := store.PutChecked(choice.dest, choice.out, MustNotExist, start);
    copied, first := stored.Some?, Write(true, before, store.files);
  }

  /** Deletes the original under the version that was read, or takes the copy back. */
  method Settle(store: NoteStore, v: Close.Vault, path: Key, choice: Choice, ghost first: Write, ghost start: nat)
    returns (closing: Closing, ghost second: Write)
    requires start <= |store.log| && choice.Chosen? && !InArchive(v, path)
    modifies store
    ensures old(store.log) <= store.log && closing in {ClosedAt(choice.dest, choice.seen), CopyGone, KeptChanging}
    ensures store.Since(start) == if closing.CopyGone? then old(store.Since(start)) else old(store.Since(start)) + [second]
    ensures closing.ClosedAt? ==>
      Cell(second.before, path) == Some(choice.seen) && second.after == second.before - {path}
    ensures closing.KeptChanging? ==> Lost(old(store.conflicts), store.conflicts, 1)
    ensures closing.KeptChanging? ==>
      choice.dest in second.before && second.after == second.before - {choice.dest}
  {
    store.Others(start);
    ghost var original := store.files;
    var removed := store.Remove(path, Some(choice.seen), start);
    second := Write(true, original, store.files);
    if removed {
      return ClosedAt(choice.dest, choice.seen), second;
    }
    store.Others(start);
    ghost var undoing := store.files;
    var undone := store.Remove(choice.dest, None, start);
    second := Write(true, undoing, store.files);
    closing := if undone then KeptChanging else CopyGone;
  }

  lemma TakenBack(dest: Key, first: Write, second: Write)
    requires dest !in first.before && dest in first.after && first.after == first.before[dest := first.after[dest]]
    requires dest in second.before && second.after == second.before - {dest}
    ensures Undoes(first, second)
  {
    assert first.after - {dest} == first.before;
  }

  /** One attempt of `close`: what it wrote, and which name it lost. */
  method CloseOnce(store: NoteStore, v: Close.Vault, path: Key, how: How, lost: set<Key>, ghost start: nat)
    returns (closing: Closing, taken: set<Key>)
    requires start <= |store.log|
    modifies store
    ensures old(store.log) <= store.log
    ensures Attempted(v, path, how, closing, old(store.Since(start)), store.Since(start))
    ensures closing.KeptChanging? ==> Lost(old(store.conflicts), store.conflicts, 1)
  {
    taken := {};
    var choice := Choose(store, v, path, how, lost, start);
    if choice.Not? {
      return choice.closing, {};
    }
    if InArchive(v, path) {
      closing := CloseInPlace(store, v, path, how, choice, start);
      return;
    }
    var copied;
    closing, copied := CloseByCopy(store, v, path, how, choice, start);
    taken := if copied then {} else {choice.dest};
  }

  /** Elsewhere: the copy, and then the original or the copy goes. */
  method CloseByCopy(store: NoteStore, v: Close.Vault, path: Key, ghost how: How, choice: Choice, ghost start: nat)
    returns (closing: Closing, copied: bool)
    requires start <= |store.log| && choice.Chosen? && ChosenWell(v, path, how, choice) && !InArchive(v, path)
    modifies store
    ensures old(store.log) <= store.log
    ensures Attempted(v, path, how, closing, old(store.Since(start)), store.Since(start))
    ensures closing.KeptChanging? ==> Lost(old(store.conflicts), store.conflicts, 1)
  {
    ghost var before := store.Since(start);
    ghost var first, second;
    copied, first := Copy(store, v, path, how, choice, start);
    if !copied {
      return KeptChanging, false;
    }
    closing, second := Settle(store, v, path, choice, first, start);
    ghost var mine := store.Since(start);
    if closing.CopyGone? {
      assert mine == before + [first];
    } else {
      assert mine == before + [first] + [second];
      assert mine[|before|..] == [first, second];
      if closing.KeptChanging? {
        TakenBack(choice.dest, first, second);
      }
    }
  }

  /** `close`, with other processes writing between any two calls: a success has archived exactly the version it removed,
      under a name that no note had; a close that does not succeed has taken back every copy it made, unless somebody
      else removed the copy first. */
  method CloseNote(store: NoteStore, v: Close.Vault, path: Key, how: How) returns (closing: Closing)
    modifies store
    ensures old(store.log) <= store.log
    ensures var mine := store.Since(|old(store.log)|);
      match closing
      case ClosedAt(dest, seen) =>
        exists n: nat :: n <= |mine| && Undone(mine[..n]) && ClosedBy(v, path, how, seen, dest, mine[n..])
      case CopyGone => mine != [] && Undone(mine[..|mine| - 1])
      case _ => Undone(mine)
    ensures closing.KeptChanging? ==> Lost(old(store.conflicts), store.conflicts, REWRITE_RETRIES + 1)
  {
    ghost var start := |store.log|;
    var lost: set<Key> := {};
    for attempt := 0 to REWRITE_RETRIES + 1
      invariant old(store.log) <= store.log && Undone(store.Since(start))
      invariant Lost(old(store.conflicts), store.conflicts, attempt)
    {
      ghost var before := store.Since(start);
      var taken;
      closing, taken := CloseOnce(store, v, path, how, lost, start);
      ghost var mine := store.Since(start);
      if !closing.KeptChanging? {
        assert mine[..|before|] == before;
        return;
      }
      if mine != before {
        UndoneAfter(before, mine[|before|], mine[|before| + 1]);
        assert mine == before + [mine[|before|]] + [mine[|before| + 1]];
      }
      lost := lost + taken;
    }
    closing := KeptChanging;
  }
}
