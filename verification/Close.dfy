/** Closing a note into the archive: copy it under "must not exist", delete the original under the version that was
    read, and take the copy back when the original changed (mindin/notes.py:224-232, 301-334). */
module Close {
  import opened Texts
  import opened NoteTools
  import opened NoteEdits

  datatype Vault = Vault(schema: Schema, archive: Option<Key>, listed: Key -> bool)

  datatype Phase =
    | Ready
    | Seen(version: Version, clock: Clock)
    | Picked(version: Version, dest: Key, out: Text)
    | Copied(version: Version, dest: Key, copy: Version)
    | Undoing(dest: Key)
    | Done(version: Version, dest: Key, copy: Version)
    | Raised(error: Error)
    | GaveUp

  datatype Closer = Closer(path: Key, how: How, attempt: nat, lost: set<Key>, phase: Phase)

  datatype State = State(files: map<Key, Version>, closers: map<nat, Closer>)

  datatype Event =
    | Begin(id: nat, path: Key, how: How)
    | ReadNote(id: nat, clock: Clock)
    | Pick(id: nat, dest: Key)
    | PutCopy(id: nat, copy: Version)
    | DeleteOriginal(id: nat)
    | Undo(id: nat)
    | Outside(key: Key, cell: Option<Version>)

  datatype Trace = First(state: State) | More(before: Trace, event: Event, state: State)

  predicate InArchive(v: Vault, path: Key) {
    v.archive.None? || StartsWith(path, v.archive.value + "/")
  }

  function BaseName(path: Key): Key {
    if path == "" then "" else if path[|path| - 1] == '/' then ""
    else BaseName(path[..|path| - 1]) + [path[|path| - 1]]
  }

  function Stem(path: Key): Key {
    var name := BaseName(path);
    if EndsWith(name, ".md") then name[..|name| - 3] else name
  }

  /** The names `_free_key` tries: the plain one, then -2, -3 and so on. */
  function Candidate(folder: Key, stem: Key, number: nat): Key {
    if number <= 1 then folder + "/" + stem + ".md" else folder + "/" + stem + "-" + Decimal(number) + ".md"
  }

  /** The first candidate that is not taken. */
  ghost predicate FirstFree(taken: set<Key>, folder: Key, stem: Key, key: Key) {
    exists number: nat :: number >= 1 && key == Candidate(folder, stem, number) && key !in taken
      && forall m: nat :: 1 <= m < number ==> Candidate(folder, stem, m) in taken
  }

  function Listing(v: Vault, files: map<Key, Version>): set<Key> {
    set key | key in files && v.listed(key)
  }

  /** The note as `close` leaves it at `dest`, or the exception of the validation. */
  function Restated(v: Vault, dest: Key, how: How, clock: Clock, text: Text): Decision
    requires text.Note?
  {
    Stamped(v.schema, dest, ClosedFront(text.front, how), text.body, clock, Nothing)
  }

  predicate Holds(c: Closer) {
    c.phase.Copied? || c.phase.Undoing?
  }

  /** The copies of closers that have yet to delete the original or to take the copy back. */
  function Pending(s: State): set<Key> {
    set id | id in s.closers && Holds(s.closers[id]) :: s.closers[id].phase.dest
  }

  function Retry(c: Closer, lost: set<Key>): Closer {
    if c.attempt < REWRITE_RETRIES + 1 then c.(attempt := c.attempt + 1, lost := lost, phase := Ready)
    else c.(lost := lost, phase := GaveUp)
  }

  function AfterChoice(v: Vault, c: Closer, dest: Key, version: Version, clock: Clock): Phase
    requires version.text.Note?
  {
    var decision := Restated(v, dest, c.how, clock, version.text);
    if decision.Put? then Picked(version, dest, decision.text) else Raised(Invalid)
  }

  function AfterRead(v: Vault, s: State, c: Closer, clock: Clock): Phase {
    if c.path !in s.files then Raised(NotFound)
    else if s.files[c.path].text.Broken? then Raised(Unparsable)
    else if InArchive(v, c.path) then AfterChoice(v, c, c.path, s.files[c.path], clock)
    else Seen(s.files[c.path], clock)
  }

  function With(s: State, id: nat, c: Closer): State {
    s.(closers := s.closers[id := c])
  }

  ghost predicate CloserStep(v: Vault, s: State, e: Event, s': State)
    requires !e.Begin? && !e.Outside? && e.id in s.closers
  {
    var c := s.closers[e.id];
    match e
    case ReadNote(id, clock) =>
      c.phase.Ready? && s' == With(s, id, c.(phase := AfterRead(v, s, c, clock)))
    case Pick(id, dest) =>
      && c.phase.Seen? && v.archive.Some? && c.phase.version.text.Note?
      && FirstFree(Listing(v, s.files) + c.lost, v.archive.value, Stem(c.path), dest)
      && s' == With(s, id, c.(phase := AfterChoice(v, c, dest, c.phase.version, c.phase.clock)))
    case PutCopy(id, copy) =>
      && c.phase.Picked? && copy.text == c.phase.out
      && if InArchive(v, c.path) then
           if c.path in s.files && s.files[c.path] == c.phase.version then
             && c.path !in Pending(s)
             && s' == With(s, id, c.(phase := Done(c.phase.version, c.path, copy))).(files := s.files[c.path := copy])
           else s' == With(s, id, Retry(c, c.lost))
         else
           if c.phase.dest !in s.files then
             s' == With(s, id, c.(phase := Copied(c.phase.version, c.phase.dest, copy)))
                     .(files := s.files[c.phase.dest := copy])
           else s' == With(s, id, Retry(c, c.lost + {c.phase.dest}))
    case DeleteOriginal(id) =>
      && c.phase.Copied?
      && if c.path in s.files && s.files[c.path] == c.phase.version then
           && c.path !in Pending(s)
           && s' == With(s, id, c.(phase := Done(c.phase.version, c.phase.dest, c.phase.copy)))
                      .(files := s.files - {c.path})
         else s' == With(s, id, c.(phase := Undoing(c.phase.dest)))
    case Undo(id) =>
      && c.phase.Undoing?
      && s' == With(s, id, Retry(c, c.lost)).(files := s.files - {c.phase.dest})
  }

  /** Nobody but the closer that made it touches a copy whose close is still under way. */
  ghost predicate Step(v: Vault, s: State, e: Event, s': State) {
    match e
    case Begin(id, path, how) => id !in s.closers && s' == With(s, id, Closer(path, how, 1, {}, Ready))
    case Outside(key, cell) =>
      && key !in Pending(s)
      && s' == s.(files := if cell.Some? then s.files[key := cell.value] else s.files - {key})
    case _ => e.id in s.closers && CloserStep(v, s, e, s')
  }

  ghost predicate Run(v: Vault, t: Trace) {
    match t
    case First(s) => s.closers == map[]
    case More(before, e, s) => Run(v, before) && Step(v, before.state, e, s)
  }

  // ---- the atomic close that every run amounts to ----

  /** The notes as everyone but the closers at work may see them. */
  function Notes(s: State): map<Key, Version> {
    s.files - Pending(s)
  }

  datatype Effect =
    | NoEffect
    | Wrote(key: Key, version: Version)
    | Removed(key: Key)
    | Archived(path: Key, version: Version, how: How, dest: Key, copy: Version)
    | ClosedThere(path: Key, version: Version, how: How, copy: Version)

  /** What a step does to the notes. */
  function EffectOf(v: Vault, s: State, e: Event): Effect {
    match e
    case Outside(key, cell) => if cell.Some? then Wrote(key, cell.value) else Removed(key)
    case PutCopy(id, copy) =>
      if id in s.closers && s.closers[id].phase.Picked? && InArchive(v, s.closers[id].path)
         && s.closers[id].path in s.files && s.files[s.closers[id].path] == s.closers[id].phase.version
      then ClosedThere(s.closers[id].path, s.closers[id].phase.version, s.closers[id].how, copy) else NoEffect
    case DeleteOriginal(id) =>
      if id in s.closers && s.closers[id].phase.Copied?
         && s.closers[id].path in s.files && s.files[s.closers[id].path] == s.closers[id].phase.version
      then Archived(s.closers[id].path, s.closers[id].phase.version, s.closers[id].how, s.closers[id].phase.dest,
                    s.closers[id].phase.copy)
      else NoEffect
    case _ => NoEffect
  }

  function Apply(notes: map<Key, Version>, effect: Effect): map<Key, Version> {
    match effect
    case NoEffect => notes
    case Wrote(key, version) => notes[key := version]
    case Removed(key) => notes - {key}
    case Archived(path, _, _, dest, copy) => (notes - {path})[dest := copy]
    case ClosedThere(path, _, _, copy) => notes[path := copy]
  }

  /** `out` is the form of `version` that is closed so, at `dest`. */
  ghost predicate ClosesTo(v: Vault, version: Version, how: How, dest: Key, out: Text) {
    version.text.Note? && exists clock :: Restated(v, dest, how, clock, version.text) == Put(out, Nothing)
  }

  /** A close archives exactly the version it removes, and overwrites no note. */
  ghost predicate Faithful(v: Vault, notes: map<Key, Version>, effect: Effect) {
    match effect
    case Archived(path, version, how, dest, copy) =>
      && path in notes && notes[path] == version && dest !in notes && dest != path
      && ClosesTo(v, version, how, dest, copy.text)
    case ClosedThere(path, version, how, copy) =>
      path in notes && notes[path] == version && ClosesTo(v, version, how, path, copy.text)
    case _ => true
  }

  ghost predicate CloserSound(v: Vault, s: State, c: Closer) {
    match c.phase
    case Seen(version, _) => version.text.Note? && !InArchive(v, c.path)
    case Picked(version, dest, out) =>
      && ClosesTo(v, version, c.how, dest, out) && (InArchive(v, c.path) ==> dest == c.path)
      && (!InArchive(v, c.path) ==> StartsWith(dest, v.archive.value + "/"))
    case Copied(version, dest, copy) =>
      && !InArchive(v, c.path) && StartsWith(dest, v.archive.value + "/") && dest in s.files && s.files[dest] == copy
      && ClosesTo(v, version, c.how, dest, copy.text)
    case Undoing(dest) => !InArchive(v, c.path) && StartsWith(dest, v.archive.value + "/") && dest in s.files
    case _ => true
  }

  predicate Apart(c: Closer, d: Closer) {
    Holds(c) && Holds(d) ==> c.phase.dest != d.phase.dest
  }

  ghost predicate Sound(v: Vault, s: State) {
    && (forall id :: id in s.closers ==> CloserSound(v, s, s.closers[id]))
    && forall id, other :: id in s.closers && other in s.closers && id != other ==>
         Apart(s.closers[id], s.closers[other])
  }

  lemma FirstFreeIsUnder(taken: set<Key>, folder: Key, stem: Key, key: Key)
    requires FirstFree(taken, folder, stem, key)
    ensures StartsWith(key, folder + "/")
  {
    var number: nat :| number >= 1 && key == Candidate(folder, stem, number);
    if number <= 1 {
      assert key == folder + "/" + (stem + ".md");
    } else {
      assert key == folder + "/" + (stem + "-" + Decimal(number) + ".md");
    }
  }

  lemma ChoiceIsSound(v: Vault, s: State, c: Closer, dest: Key, version: Version, clock: Clock)
    requires version.text.Note?
    requires if InArchive(v, c.path) then dest == c.path else StartsWith(dest, v.archive.value + "/")
    ensures CloserSound(v, s, c.(phase := AfterChoice(v, c, dest, version, clock)))
  {
    assert Restated(v, dest, c.how, clock, version.text).Put? ==>
             Restated(v, dest, c.how, clock, version.text).reply == Nothing;
  }

  lemma ActorIsSound(v: Vault, s: State, e: Event, s': State)
    requires Sound(v, s) && Step(v, s, e, s') && !e.Outside?
    ensures CloserSound(v, s', s'.closers[e.id])
  {
    if e.ReadNote? {
      var c := s.closers[e.id];
      if c.path in s.files && s.files[c.path].text.Note? && InArchive(v, c.path) {
        ChoiceIsSound(v, s', c, c.path, s.files[c.path], e.clock);
      }
    } else if e.Pick? {
      var c := s.closers[e.id];
      assert CloserSound(v, s, c);
      FirstFreeIsUnder(Listing(v, s.files) + c.lost, v.archive.value, Stem(c.path), e.dest);
      ChoiceIsSound(v, s', c, e.dest, c.phase.version, c.phase.clock);
    } else if !e.Begin? {
      assert CloserSound(v, s, s.closers[e.id]);
    }
  }

  /** A copy under way is nobody else's to touch. */
  lemma PendingUntouched(v: Vault, s: State, e: Event, s': State, other: nat)
    requires Sound(v, s) && Step(v, s, e, s') && other in s.closers && (e.Outside? || e.id != other)
    ensures other in s'.closers && s'.closers[other] == s.closers[other]
    ensures Holds(s.closers[other]) ==>
              var dest := s.closers[other].phase.dest;
              dest in s.files && dest in s'.files && s'.files[dest] == s.files[dest]
  {
    if Holds(s.closers[other]) {
      assert CloserSound(v, s, s.closers[other]);
      assert s.closers[other].phase.dest in Pending(s);
      if !e.Outside? && e.id in s.closers {
        assert CloserSound(v, s, s.closers[e.id]);
        assert Apart(s.closers[e.id], s.closers[other]);
      }
    }
  }

  lemma WorkerStaysApart(v: Vault, s: State, e: Event, s': State, other: nat)
    requires Sound(v, s) && !e.Begin? && !e.Outside? && e.id in s.closers && CloserStep(v, s, e, s')
    requires other in s.closers && other != e.id
    ensures Apart(s'.closers[e.id], s.closers[other])
  {
    assert CloserSound(v, s, s.closers[other]);
    assert Apart(s.closers[e.id], s.closers[other]);
  }

  lemma ActorStaysApart(v: Vault, s: State, e: Event, s': State, other: nat)
    requires Sound(v, s) && Step(v, s, e, s') && !e.Outside? && other in s.closers && other != e.id
    ensures Apart(s'.closers[e.id], s.closers[other])
  {
    if !e.Begin? {
      WorkerStaysApart(v, s, e, s', other);
    }
  }

  lemma StepIsSound(v: Vault, s: State, e: Event, s': State)
    requires Sound(v, s) && Step(v, s, e, s')
    ensures Sound(v, s')
  {
    forall other | other in s'.closers ensures CloserSound(v, s', s'.closers[other]) {
      if !e.Outside? && e.id == other {
        ActorIsSound(v, s, e, s');
      } else {
        assert CloserSound(v, s, s.closers[other]);
        PendingUntouched(v, s, e, s', other);
      }
    }
    forall a, b | a in s'.closers && b in s'.closers && a != b ensures Apart(s'.closers[a], s'.closers[b]) {
      if !e.Outside? && e.id == a {
        PendingUntouched(v, s, e, s', b);
        ActorStaysApart(v, s, e, s', b);
      } else if !e.Outside? && e.id == b {
        PendingUntouched(v, s, e, s', a);
        ActorStaysApart(v, s, e, s', a);
      } else {
        PendingUntouched(v, s, e, s', a);
        PendingUntouched(v, s, e, s', b);
        assert Apart(s.closers[a], s.closers[b]);
      }
    }
  }

  lemma {:induction false} AlwaysSound(v: Vault, t: Trace)
    requires Run(v, t)
    ensures Sound(v, t.state)
  {
    if t.More? {
      AlwaysSound(v, t.before);
      StepIsSound(v, t.before.state, t.event, t.state);
    }
  }

  lemma PendingAre(v: Vault, s: State)
    requires Sound(v, s)
    ensures forall id :: id in s.closers && Holds(s.closers[id]) ==> s.closers[id].phase.dest in Pending(s)
    ensures Pending(s) <= s.files.Keys
  {
    forall id | id in s.closers && Holds(s.closers[id])
      ensures s.closers[id].phase.dest in Pending(s) && s.closers[id].phase.dest in s.files
    {
      assert CloserSound(v, s, s.closers[id]);
    }
  }

  function OwnCopy(s: State, id: nat): set<Key> {
    if id in s.closers && Holds(s.closers[id]) then {s.closers[id].phase.dest} else {}
  }

  /** When one closer moves, only its own copy enters or leaves the set of pending copies. */
  lemma PendingMoves(v: Vault, s: State, id: nat, s': State)
    requires Sound(v, s) && Sound(v, s') && id in s'.closers
    requires s'.closers == s.closers[id := s'.closers[id]]
    ensures Pending(s') == Pending(s) - OwnCopy(s, id) + OwnCopy(s', id)
    ensures OwnCopy(s, id) <= Pending(s)
  {
    forall key | key in Pending(s)
      ensures key in Pending(s') + OwnCopy(s, id)
    {
      var other :| other in s.closers && Holds(s.closers[other]) && s.closers[other].phase.dest == key;
      assert other != id ==> s'.closers[other] == s.closers[other];
    }
    forall key | key in Pending(s')
      ensures key in Pending(s) - OwnCopy(s, id) + OwnCopy(s', id)
    {
      var other :| other in s'.closers && Holds(s'.closers[other]) && s'.closers[other].phase.dest == key;
      if other != id {
        assert s.closers[other] == s'.closers[other];
        if id in s.closers { assert Apart(s.closers[id], s.closers[other]); }
      }
    }
    forall key | key in OwnCopy(s', id) ensures key in Pending(s') {
      assert Holds(s'.closers[id]);
    }
  }

  lemma InPlaceHoldsNothing(v: Vault, s: State, e: Event, s': State)
    requires Sound(v, s) && Sound(v, s') && Step(v, s, e, s') && e.PutCopy? && InArchive(v, s.closers[e.id].path)
    ensures Pending(s') == Pending(s)
  {
    PendingMoves(v, s, e.id, s');
  }

  lemma InPlaceRefines(v: Vault, s: State, e: Event, s': State)
    requires Sound(v, s) && Sound(v, s') && Step(v, s, e, s') && e.PutCopy? && InArchive(v, s.closers[e.id].path)
    ensures Notes(s') == Apply(Notes(s), EffectOf(v, s, e))
    ensures Faithful(v, Notes(s), EffectOf(v, s, e))
  {
    InPlaceHoldsNothing(v, s, e, s');
    assert CloserSound(v, s, s.closers[e.id]);
  }

  lemma CopyRefines(v: Vault, s: State, e: Event, s': State)
    requires Sound(v, s) && Sound(v, s') && Step(v, s, e, s') && e.PutCopy? && !InArchive(v, s.closers[e.id].path)
    ensures Notes(s') == Notes(s) && EffectOf(v, s, e).NoEffect?
  {
    PendingMoves(v, s, e.id, s');
    CopyIsNew(v, s, e, s');
  }

  lemma CopyIsNew(v: Vault, s: State, e: Event, s': State)
    requires Sound(v, s) && Step(v, s, e, s') && e.PutCopy? && !InArchive(v, s.closers[e.id].path)
    ensures OwnCopy(s, e.id) == {} && s'.files - OwnCopy(s', e.id) == s.files
  {
  }

  lemma DeleteRefines(v: Vault, s: State, e: Event, s': State)
    requires Sound(v, s) && Sound(v, s') && Step(v, s, e, s') && e.DeleteOriginal?
    ensures Notes(s') == Apply(Notes(s), EffectOf(v, s, e))
    ensures Faithful(v, Notes(s), EffectOf(v, s, e))
  {
    PendingAre(v, s);
    PendingMoves(v, s, e.id, s');
    assert CloserSound(v, s, s.closers[e.id]);
  }

  lemma UndoRefines(v: Vault, s: State, e: Event, s': State)
    requires Sound(v, s) && Sound(v, s') && Step(v, s, e, s') && e.Undo?
    ensures Notes(s') == Notes(s) && EffectOf(v, s, e).NoEffect?
  {
    PendingAre(v, s);
    PendingMoves(v, s, e.id, s');
  }

  lemma QuietRefines(v: Vault, s: State, e: Event, s': State)
    requires Sound(v, s) && Sound(v, s') && Step(v, s, e, s') && (e.Begin? || e.ReadNote? || e.Pick?)
    ensures Notes(s') == Notes(s) && EffectOf(v, s, e).NoEffect?
  {
    PendingMoves(v, s, e.id, s');
  }

  lemma OutsideRefines(v: Vault, s: State, e: Event, s': State)
    requires Sound(v, s) && Step(v, s, e, s') && e.Outside?
    ensures Notes(s') == Apply(Notes(s), EffectOf(v, s, e))
    ensures Faithful(v, Notes(s), EffectOf(v, s, e))
  {
    assert Pending(s') == Pending(s);
  }

  /** Every step is, to everyone else, one effect on the notes: a read, a copy and an undo are none, and the delete is
      the whole close at once. */
  lemma StepRefines(v: Vault, s: State, e: Event, s': State)
    requires Sound(v, s) && Step(v, s, e, s')
    ensures Notes(s') == Apply(Notes(s), EffectOf(v, s, e))
    ensures Faithful(v, Notes(s), EffectOf(v, s, e))
  {
    StepIsSound(v, s, e, s');
    if e.PutCopy? && InArchive(v, s.closers[e.id].path) {
      InPlaceRefines(v, s, e, s');
    } else if e.PutCopy? {
      CopyRefines(v, s, e, s');
    } else if e.DeleteOriginal? {
      DeleteRefines(v, s, e, s');
    } else if e.Undo? {
      UndoRefines(v, s, e, s');
    } else if e.Outside? {
      OutsideRefines(v, s, e, s');
    } else {
      QuietRefines(v, s, e, s');
    }
  }

  lemma RunRefines(v: Vault, t: Trace)
    requires Run(v, t) && t.More?
    ensures var effect := EffectOf(v, t.before.state, t.event);
            Notes(t.state) == Apply(Notes(t.before.state), effect) && Faithful(v, Notes(t.before.state), effect)
  {
    AlwaysSound(v, t.before);
    StepRefines(v, t.before.state, t.event, t.state);
  }

  /** No step loses a note's newest content: a note that changes or goes was written or deleted by somebody else, or
      was closed, as asked, with exactly the content it had. */
  lemma NewestSurvives(v: Vault, t: Trace, path: Key)
    requires Run(v, t) && t.More? && path in Notes(t.before.state)
    requires path !in Notes(t.state) || Notes(t.state)[path] != Notes(t.before.state)[path]
    ensures var newest := Notes(t.before.state)[path];
            || (t.event.Outside? && t.event.key == path)
            || (!t.event.Outside? && t.event.id in t.before.state.closers
                && var how := t.before.state.closers[t.event.id].how;
                   || (exists dest :: dest !in Notes(t.before.state) && dest in Notes(t.state)
                         && ClosesTo(v, newest, how, dest, Notes(t.state)[dest].text))
                   || (path in Notes(t.state) && ClosesTo(v, newest, how, path, Notes(t.state)[path].text)))
  {
    RunRefines(v, t);
    var effect := EffectOf(v, t.before.state, t.event);
    if effect.Archived? {
      assert effect.dest !in Notes(t.before.state) && effect.dest in Notes(t.state);
    }
  }

  /** The closed note is the note: same text and fields, apart from the status that was asked for, the dates and the
      dropped claim; and the schema accepts it there. */
  lemma ClosedKeepsContent(v: Vault, version: Version, how: How, dest: Key, out: Text)
    requires ClosesTo(v, version, how, dest, out)
    ensures out.Note? && out.front.claim.Absent? && v.schema.accepts(dest, out.front)
    ensures exists clock :: ClosedAs(version.text, how, clock, out)
    ensures StripNewlines(out.body) == StripNewlines(version.text.body)
    ensures forall name | name in version.text.front.fields && name !in {"status", "superseded_by", "updated", "date"}
              :: name in out.front.fields && out.front.fields[name] == version.text.front.fields[name]
    ensures "status" in out.front.fields && "updated" in out.front.fields && "date" in out.front.fields
    ensures Field(version.text.front, "date", "") != "" ==>
              out.front.fields["date"] == version.text.front.fields["date"]
  {
    var clock :| Restated(v, dest, how, clock, version.text) == Put(out, Nothing);
    ClosingIsRight(v.schema, dest, how, clock, version.text);
    assert ClosedAs(version.text, how, clock, out);
    assert Value(out.front, "status").Some? && Value(out.front, "updated").Some? && Value(out.front, "date").Some?;
    forall name | name in version.text.front.fields && name !in {"status", "superseded_by", "updated", "date"}
      ensures name in out.front.fields && out.front.fields[name] == version.text.front.fields[name]
    {
      assert Value(out.front, name) == Value(version.text.front, name);
    }
  }

  // ---- what one closer does, over a whole run ----

  function Closings(v: Vault, t: Trace, id: nat): nat {
    if t.First? then 0
    else
      var effect := EffectOf(v, t.before.state, t.event);
      Closings(v, t.before, id)
      + if (effect.Archived? || effect.ClosedThere?) && t.event.id == id then 1 else 0
  }

  /** A close that returns closed the note once; one that raised, or is still at work, closed nothing. */
  lemma {:induction false} ClosesOnceOrNever(v: Vault, t: Trace, id: nat)
    requires Run(v, t)
    ensures Closings(v, t, id) == if id in t.state.closers && t.state.closers[id].phase.Done? then 1 else 0
  {
    if t.More? {
      ClosesOnceOrNever(v, t.before, id);
      if !t.event.Outside? && t.event.id != id {
        assert id in t.state.closers <==> id in t.before.state.closers;
      }
    }
  }

  /** A step in which a closer loses against another writer: a copy that could not be written, or one taken back. */
  predicate Loses(v: Vault, s: State, e: Event, id: nat) {
    && id in s.closers && (e.PutCopy? || e.Undo?) && e.id == id
    && (e.PutCopy? && s.closers[id].phase.Picked? ==>
          if InArchive(v, s.closers[id].path)
          then s.closers[id].path !in s.files || s.files[s.closers[id].path] != s.closers[id].phase.version
          else s.closers[id].phase.dest in s.files)
  }

  function Losses(v: Vault, t: Trace, id: nat): nat {
    if t.First? then 0 else Losses(v, t.before, id) + if Loses(v, t.before.state, t.event, id) then 1 else 0
  }

  /** How many attempts a closer has lost. */
  function Lost(s: State, id: nat): nat {
    if id !in s.closers then 0
    else if s.closers[id].phase.GaveUp? || s.closers[id].attempt == 0 then s.closers[id].attempt
    else s.closers[id].attempt - 1
  }

  predicate Counts(s: State, id: nat) {
    id in s.closers ==> 1 <= s.closers[id].attempt <= 4 && (s.closers[id].phase.GaveUp? ==> s.closers[id].attempt == 4)
  }

  lemma WorkLoses(v: Vault, s: State, e: Event, s': State)
    requires !e.Begin? && !e.Outside? && e.id in s.closers && CloserStep(v, s, e, s') && Counts(s, e.id)
    ensures Counts(s', e.id) && Lost(s', e.id) == Lost(s, e.id) + if Loses(v, s, e, e.id) then 1 else 0
  {
  }

  /** A close gives up only after its four attempts, each lost to another writer. */
  lemma {:induction false} GivesUpAfterFour(v: Vault, t: Trace, id: nat)
    requires Run(v, t)
    ensures Counts(t.state, id) && Losses(v, t, id) == Lost(t.state, id)
    ensures id in t.state.closers && t.state.closers[id].phase.GaveUp? ==> Losses(v, t, id) == 4
  {
    if t.More? {
      GivesUpAfterFour(v, t.before, id);
      var e := t.event;
      if !e.Outside? && !e.Begin? {
        if e.id == id {
          WorkLoses(v, t.before.state, e, t.state);
        } else {
          assert t.state.closers == t.before.state.closers[e.id := t.state.closers[e.id]];
        }
      }
    }
  }

  predicate Finished(c: Closer) {
    c.phase.Done? || c.phase.Raised? || c.phase.GaveUp?
  }

  /** Once every close has returned or raised, what is stored is the notes: no copy of a raised close is left. */
  lemma NoCopyIsLeft(v: Vault, t: Trace)
    requires Run(v, t) && forall id :: id in t.state.closers ==> Finished(t.state.closers[id])
    ensures t.state.files == Notes(t.state)
  {
    assert Pending(t.state) == {};
  }

  // ---- any number of closers of one note that nobody else writes ----

  function Start(t: Trace): State {
    if t.First? then t.state else Start(t.before)
  }

  /** A run in which everybody closes `path` and nobody writes anything else. */
  ghost predicate Crowd(v: Vault, t: Trace, path: Key) {
    && Run(v, t)
    && match t
       case First(_) => true
       case More(before, e, _) => Crowd(v, before, path) && !e.Outside? && (e.Begin? ==> e.path == path)
  }

  /** The note can be closed: it lies outside the archive, parses, and stays valid wherever it goes; and the listing
      shows what is in the archive. */
  ghost predicate Closable(v: Vault, files: map<Key, Version>, path: Key) {
    && path in files && files[path].text.Note? && !InArchive(v, path)
    && (forall dest, how, clock :: Restated(v, dest, how, clock, files[path].text).Put?)
    && forall key :: StartsWith(key, v.archive.value + "/") ==> v.listed(key)
  }

  /** A closer that lost a race for a name. */
  predicate Troubled(c: Closer) {
    c.attempt > 1 || c.phase.GaveUp?
  }

  ghost predicate SomeoneCopied(s: State) {
    exists id :: id in s.closers && s.closers[id].phase.Copied?
  }

  ghost predicate StillOpen(files: map<Key, Version>, path: Key, c: Closer)
    requires path in files
  {
    match c.phase
    case Ready => true
    case Seen(version, _) => version == files[path]
    case Picked(version, dest, _) => version == files[path] && dest !in files
    case Copied(version, _, _) => version == files[path]
    case GaveUp => true
    case _ => false
  }

  /** Nobody has closed the note yet. */
  ghost predicate Open(files: map<Key, Version>, path: Key, s: State)
    requires path in files
  {
    && Notes(s) == files
    && (forall id :: id in s.closers ==> s.closers[id].path == path && StillOpen(files, path, s.closers[id]))
    && ((exists id :: id in s.closers && Troubled(s.closers[id])) ==> SomeoneCopied(s))
  }

  /** `winner` has closed the note, alone. */
  ghost predicate Shut(v: Vault, files: map<Key, Version>, path: Key, s: State, winner: nat)
    requires path in files
  {
    && winner in s.closers && s.closers[winner].phase.Done?
    && (forall id :: id in s.closers ==> s.closers[id].path == path && (s.closers[id].phase.Done? ==> id == winner))
    && var done := s.closers[winner].phase;
       && done.version == files[path] && done.dest !in files && ClosesTo(v, done.version, s.closers[winner].how, done.dest, done.copy.text)
       && Notes(s) == (files - {path})[done.dest := done.copy]
  }

  lemma PendingInArchive(v: Vault, s: State, key: Key)
    requires Sound(v, s) && key in Pending(s)
    ensures v.archive.Some? && InArchive(v, key)
  {
    var id :| id in s.closers && Holds(s.closers[id]) && s.closers[id].phase.dest == key;
    assert CloserSound(v, s, s.closers[id]);
  }

  lemma PathIsSeen(v: Vault, files: map<Key, Version>, path: Key, s: State)
    requires Closable(v, files, path) && Open(files, path, s)
    ensures path in s.files && s.files[path] == files[path]
  {
    assert path in Notes(s);
  }

  /** The acting closer's own state stays as `StillOpen` says, or it deletes the original. */
  lemma OpenActor(v: Vault, files: map<Key, Version>, path: Key, s: State, e: Event, s': State)
    requires Closable(v, files, path) && Sound(v, s) && Open(files, path, s) && Step(v, s, e, s')
    requires !e.Outside? && (e.Begin? ==> e.path == path)
    ensures s'.closers[e.id].path == path
    ensures e.DeleteOriginal? || StillOpen(files, path, s'.closers[e.id])
    ensures e.DeleteOriginal? ==> s'.closers[e.id].phase.Done? && s'.closers[e.id].phase.version == files[path]
  {
    PathIsSeen(v, files, path, s);
    if !e.Begin? {
      var c := s.closers[e.id];
      assert CloserSound(v, s, c) && StillOpen(files, path, c);
      if e.Pick? {
        FirstFreeIsUnder(Listing(v, s.files) + c.lost, v.archive.value, Stem(c.path), e.dest);
        assert e.dest !in s.files && Notes(s).Keys <= s.files.Keys;
      }
    }
  }

  /** A name is lost only to a copy of another closer. */
  lemma TroubleHasACopy(v: Vault, files: map<Key, Version>, path: Key, s: State, e: Event, s': State)
    requires Closable(v, files, path) && Sound(v, s) && Open(files, path, s) && Step(v, s, e, s')
    requires e.PutCopy? && s.closers[e.id].phase.dest in s.files
    ensures SomeoneCopied(s')
  {
    var c := s.closers[e.id];
    assert StillOpen(files, path, c);
    assert c.phase.dest !in Notes(s);
    var other :| other in s.closers && Holds(s.closers[other]) && s.closers[other].phase.dest == c.phase.dest;
    assert StillOpen(files, path, s.closers[other]);
    assert s'.closers[other].phase.Copied?;
  }

  lemma OpenTrouble(v: Vault, files: map<Key, Version>, path: Key, s: State, e: Event, s': State)
    requires Closable(v, files, path) && Sound(v, s) && Open(files, path, s) && Step(v, s, e, s')
    requires !e.Outside? && !e.DeleteOriginal?
    ensures (exists id :: id in s'.closers && Troubled(s'.closers[id])) ==> SomeoneCopied(s')
  {
    if e.PutCopy? && s.closers[e.id].phase.dest in s.files {
      TroubleHasACopy(v, files, path, s, e, s');
    } else if exists id :: id in s'.closers && Troubled(s'.closers[id]) {
      var id :| id in s'.closers && Troubled(s'.closers[id]);
      if !e.Begin? { assert StillOpen(files, path, s.closers[e.id]); PathIsSeen(v, files, path, s); }
      assert id in s.closers && Troubled(s.closers[id]);
      var copier :| copier in s.closers && s.closers[copier].phase.Copied?;
      assert s'.closers[copier].phase.Copied?;
    }
  }

  lemma OpenHasNoEffect(v: Vault, files: map<Key, Version>, path: Key, s: State, e: Event, s': State)
    requires Closable(v, files, path) && Sound(v, s) && Open(files, path, s) && Step(v, s, e, s')
    requires !e.Outside? && !e.DeleteOriginal?
    ensures EffectOf(v, s, e).NoEffect?
  {
    if !e.Begin? {
      assert StillOpen(files, path, s.closers[e.id]) && CloserSound(v, s, s.closers[e.id]);
    }
  }

  lemma OpenStaysOpen(v: Vault, files: map<Key, Version>, path: Key, s: State, e: Event, s': State)
    requires Closable(v, files, path) && Sound(v, s) && Open(files, path, s) && Step(v, s, e, s')
    requires !e.Outside? && !e.DeleteOriginal? && (e.Begin? ==> e.path == path)
    ensures Open(files, path, s')
  {
    StepRefines(v, s, e, s');
    OpenHasNoEffect(v, files, path, s, e, s');
    OpenActor(v, files, path, s, e, s');
    OpenTrouble(v, files, path, s, e, s');
  }

  lemma OpenShuts(v: Vault, files: map<Key, Version>, path: Key, s: State, e: Event, s': State)
    requires Closable(v, files, path) && Sound(v, s) && Open(files, path, s) && Step(v, s, e, s') && e.DeleteOriginal?
    ensures Shut(v, files, path, s', e.id)
  {
    StepRefines(v, s, e, s');
    PathIsSeen(v, files, path, s);
    OpenActor(v, files, path, s, e, s');
    assert CloserSound(v, s, s.closers[e.id]);
  }

  lemma ShutIsGone(v: Vault, files: map<Key, Version>, path: Key, s: State, winner: nat)
    requires Closable(v, files, path) && Sound(v, s) && Shut(v, files, path, s, winner)
    ensures path !in s.files
  {
    assert path !in Notes(s);
    if path in Pending(s) { PendingInArchive(v, s, path); }
  }

  lemma ShutHasNoEffect(v: Vault, files: map<Key, Version>, path: Key, s: State, e: Event, s': State, winner: nat)
    requires Closable(v, files, path) && Sound(v, s) && Shut(v, files, path, s, winner) && Step(v, s, e, s')
    requires !e.Outside?
    ensures EffectOf(v, s, e).NoEffect?
  {
    ShutIsGone(v, files, path, s, winner);
    if !e.Begin? {
      assert CloserSound(v, s, s.closers[e.id]);
    }
  }

  lemma ShutStep(v: Vault, files: map<Key, Version>, path: Key, s: State, e: Event, s': State, winner: nat)
    requires Closable(v, files, path) && Sound(v, s) && Shut(v, files, path, s, winner) && Step(v, s, e, s')
    requires !e.Outside? && (e.Begin? ==> e.path == path)
    ensures Shut(v, files, path, s', winner)
  {
    StepRefines(v, s, e, s');
    ShutIsGone(v, files, path, s, winner);
    ShutHasNoEffect(v, files, path, s, e, s', winner);
  }

  lemma OpenIsUnfinished(files: map<Key, Version>, path: Key, s: State)
    requires path in files && Open(files, path, s) && s.closers != map[]
    ensures exists id :: id in s.closers && !Finished(s.closers[id])
  {
    var id :| id in s.closers;
    assert StillOpen(files, path, s.closers[id]);
    if Finished(s.closers[id]) {
      assert Troubled(s.closers[id]);
      var copier :| copier in s.closers && s.closers[copier].phase.Copied?;
      assert !Finished(s.closers[copier]);
    }
  }

  lemma {:induction false} OpenOrShut(v: Vault, t: Trace, path: Key) returns (winner: nat)
    requires Crowd(v, t, path) && Closable(v, Start(t).files, path)
    ensures Open(Start(t).files, path, t.state) || Shut(v, Start(t).files, path, t.state, winner)
  {
    if t.First? {
      assert Pending(t.state) == {};
      winner := 0;
    } else {
      winner := OpenOrShut(v, t.before, path);
      AlwaysSound(v, t.before);
      if Open(Start(t).files, path, t.before.state) {
        if t.event.DeleteOriginal? {
          OpenShuts(v, Start(t).files, path, t.before.state, t.event, t.state);
          winner := t.event.id;
        } else {
          OpenStaysOpen(v, Start(t).files, path, t.before.state, t.event, t.state);
        }
      } else {
        ShutStep(v, Start(t).files, path, t.before.state, t.event, t.state, winner);
      }
    }
  }

  /** Once all of them have finished, exactly one has closed the note: the original is gone, one copy of it is in the
      archive under a name that was free, and nothing else changed. */
  lemma ExactlyOneCopy(v: Vault, t: Trace, path: Key) returns (winner: nat)
    requires Crowd(v, t, path) && Closable(v, Start(t).files, path) && t.state.closers != map[]
    requires forall id :: id in t.state.closers ==> Finished(t.state.closers[id])
    ensures winner in t.state.closers && t.state.closers[winner].phase.Done?
    ensures forall id :: id in t.state.closers && t.state.closers[id].phase.Done? ==> id == winner
    ensures var files, done := Start(t).files, t.state.closers[winner].phase;
            && done.dest !in files && ClosesTo(v, files[path], t.state.closers[winner].how, done.dest, done.copy.text)
            && t.state.files == (files - {path})[done.dest := done.copy]
  {
    winner := OpenOrShut(v, t, path);
    NoCopyIsLeft(v, t);
    if Open(Start(t).files, path, t.state) {
      OpenIsUnfinished(Start(t).files, path, t.state);
    }
  }
}
