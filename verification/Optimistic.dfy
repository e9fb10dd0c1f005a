/** Any number of tool calls on one note, each reading it and writing it back only over the version it read, with
    other processes writing the note in between (`rewrite`, `put_frontmatter`, `write` with an etag). */
module Optimistic {
  import opened Texts
  import opened NoteTools

  datatype Kind = ContentHash | FreshNonce

  datatype Vault = Vault(schema: Schema, key: Key, kind: Kind)

  datatype Outcome = Stored(version: Version, reply: Reply) | Left(reply: Reply) | Raised(error: Error) | GaveUp

  datatype Phase =
    | Reading(attempt: nat)
    | Writing(attempt: nat, clock: Clock, seen: Option<Version>, text: Text, reply: Reply)
    | Finished(outcome: Outcome)

  datatype Call = Call(job: Job, phase: Phase)

  /** The stored note, the calls so far, and the first tag no version has used. */
  datatype State = State(cell: Option<Version>, calls: map<nat, Call>, next: nat)

  datatype Event =
    | Begin(id: nat, job: Job)
    | Read(id: nat, clock: Clock)
    | Commit(id: nat)
    | Conflict(id: nat)
    | Outside(cell: Option<Version>)

  function Expected(call: Call): Expect
    requires call.phase.Writing?
  {
    if call.job.WriteOver? then call.job.etag
    else if call.phase.seen.Some? then Exactly(call.phase.seen.value) else MustNotExist
  }

  /** The test `put_checked` makes under its lock (mindin/backends/local.py:126-135). */
  predicate Matches(cell: Option<Version>, expected: Expect) {
    if expected.MustNotExist? then cell.None? else cell == Some(expected.version)
  }

  /** A new version of `s`: a hash of the content, or one that was never used. */
  predicate Fresh(kind: Kind, s: State, version: Version, s': State) {
    match kind
    case ContentHash => version.tag == 0 && s'.next == s.next
    case FreshNonce => version.tag == s.next && s'.next == s.next + 1
  }

  function AfterRead(decision: Decision, attempt: nat, clock: Clock, seen: Option<Version>): Phase {
    match decision
    case Leave(reply) => Finished(Left(reply))
    case Raise(error) => Finished(Raised(error))
    case Put(text, reply) => Writing(attempt, clock, seen, text, reply)
  }

  ghost predicate Step(v: Vault, s: State, e: Event, s': State) {
    match e
    case Begin(id, job) =>
      id !in s.calls && s' == s.(calls := s.calls[id := Call(job, Reading(1))])
    case Read(id, clock) =>
      && id in s.calls && s.calls[id].phase.Reading?
      && var call := s.calls[id];
         var decision := Decide(v.schema, v.key, call.job, clock, TextOf(s.cell));
         s' == s.(calls := s.calls[id := call.(phase := AfterRead(decision, call.phase.attempt, clock, s.cell))])
    case Commit(id) =>
      && id in s.calls && s.calls[id].phase.Writing? && Matches(s.cell, Expected(s.calls[id]))
      && s'.cell.Some? && s'.cell.value.text == s.calls[id].phase.text && Fresh(v.kind, s, s'.cell.value, s')
      && s'.calls == s.calls[id := s.calls[id].(phase := Finished(Stored(s'.cell.value, s.calls[id].phase.reply)))]
    case Conflict(id) =>
      && id in s.calls && s.calls[id].phase.Writing? && !Matches(s.cell, Expected(s.calls[id]))
      && var call := s.calls[id];
         var again := if call.phase.attempt < Attempts(call.job) then Reading(call.phase.attempt + 1)
                      else Finished(GaveUp);
         s' == s.(calls := s.calls[id := call.(phase := again)])
    case Outside(cell) =>
      s'.cell == cell && s'.calls == s.calls && (cell.Some? ==> Fresh(v.kind, s, cell.value, s'))
      && (cell.None? ==> s'.next == s.next)
  }

  ghost predicate Initial(s: State) {
    s.calls == map[] && (s.cell.Some? ==> s.cell.value.tag < s.next)
  }

  /** A run: a first state, then one event and the state after it at a time. */
  datatype Trace = First(state: State) | More(before: Trace, event: Event, state: State)

  ghost predicate Run(v: Vault, t: Trace) {
    match t
    case First(s) => Initial(s)
    case More(before, e, s) => Run(v, before) && Step(v, before.state, e, s)
  }

  // ---- every success is one atomic change of the stored note ----

  /** A call about to write holds what its callback made of the version it read. */
  ghost predicate Computed(v: Vault, s: State) {
    forall id :: id in s.calls && s.calls[id].phase.Writing? ==>
      var p := s.calls[id].phase;
      Decide(v.schema, v.key, s.calls[id].job, p.clock, TextOf(p.seen)) == Put(p.text, p.reply)
  }

  lemma {:induction false} AlwaysComputed(v: Vault, t: Trace)
    requires Run(v, t)
    ensures Computed(v, t.state)
  {
    if t.More? {
      AlwaysComputed(v, t.before);
    }
  }

  /** The change call `id` makes at a commit is `stored := change(stored)`, for the note stored at that moment. */
  ghost predicate Atomic(v: Vault, before: State, id: nat, after: State) {
    && id in before.calls && before.calls[id].phase.Writing? && after.cell.Some?
    && var p := before.calls[id].phase;
       Decide(v.schema, v.key, before.calls[id].job, p.clock, TextOf(before.cell)) == Put(after.cell.value.text, p.reply)
  }

  /** Of the last step of any run, hence of every step: a commit changes the note as one atomic `stored :=
      change(stored)`, and no other step of a call changes it. */
  lemma Linearizable(v: Vault, t: Trace)
    requires Run(v, t) && t.More?
    ensures t.event.Commit? && !t.before.state.calls[t.event.id].job.WriteOver? ==>
              Atomic(v, t.before.state, t.event.id, t.state)
    ensures !t.event.Commit? && !t.event.Outside? ==> t.state.cell == t.before.state.cell
  {
    AlwaysComputed(v, t.before);
  }

  function Commits(t: Trace, id: nat): nat {
    if t.First? then 0 else Commits(t.before, id) + if t.event == Commit(id) then 1 else 0
  }

  predicate Succeeded(s: State, id: nat) {
    id in s.calls && s.calls[id].phase.Finished? && s.calls[id].phase.outcome.Stored?
  }

  /** A call that reports success committed exactly once; every other call changed nothing. */
  lemma {:induction false} OneCommitPerSuccess(v: Vault, t: Trace, id: nat)
    requires Run(v, t)
    ensures Commits(t, id) == if Succeeded(t.state, id) then 1 else 0
  {
    if t.More? {
      OneCommitPerSuccess(v, t.before, id);
    }
  }

  function Conflicts(t: Trace, id: nat): nat {
    if t.First? then 0 else Conflicts(t.before, id) + if t.event == Conflict(id) then 1 else 0
  }

  /** A call gives up only after its full number of attempts, each of which lost to another writer. */
  lemma {:induction false} GivesUpAfterEveryAttempt(v: Vault, t: Trace, id: nat)
    requires Run(v, t)
    ensures id !in t.state.calls ==> Conflicts(t, id) == 0
    ensures id in t.state.calls ==>
              var call := t.state.calls[id];
              match call.phase
              case Finished(outcome) =>
                if outcome.GaveUp? then Conflicts(t, id) == Attempts(call.job) else Conflicts(t, id) < Attempts(call.job)
              case Reading(attempt) => Conflicts(t, id) + 1 == attempt <= Attempts(call.job)
              case Writing(attempt, _, _, _, _) => Conflicts(t, id) + 1 == attempt <= Attempts(call.job)
    ensures id in t.state.calls ==>
              var job := t.state.calls[id].job;
              Attempts(job) == if job.WriteOver? then 1 else if job.ClaimNote? || job.ReleaseNote? then 3 else 4
  {
    if t.More? {
      GivesUpAfterEveryAttempt(v, t.before, id);
    }
  }
}
