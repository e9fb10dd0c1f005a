/** Claims exclude each other over whole runs of interleaved tool calls (mindin/tasks.py:147-186). */
module Claims {
  import opened Texts
  import opened NoteTools
  import opened Optimistic

  function ClaimOf(cell: Option<Version>): Option<Claim> {
    ClaimIn(TextOf(cell))
  }

  /** What may end or replace the claim `held`: its own machine claiming again, a forced claim, a release naming that
      machine or none, a move to the backlog, closing the note. */
  predicate MayChange(held: Claim, job: Job) {
    match job
    case ClaimNote(machine, _, _, force) => machine == held.machine || force
    case ReleaseNote(holder) => holder.None? || holder.value == held.machine
    case SetStatus(status, _, _) => status == BACKLOG
    case CloseInPlace(_) => true
    case _ => false
  }

  lemma DecisionKeepsClaim(v: Vault, job: Job, clock: Clock, current: Option<Text>)
    requires ClaimIn(current).Some? && !MayChange(ClaimIn(current).value, job)
    ensures var d := Decide(v.schema, v.key, job, clock, current);
            d.Put? ==> ClaimIn(Some(d.text)) == ClaimIn(current)
  {
  }

  // ---- an etag from an earlier read, when no version is used twice ----

  /** The etag of each conditional write was made before the call began; while the call is under way, either it read
      that very version or that version is gone for good. */
  ghost predicate EtagSettled(s: State) {
    forall id :: id in s.calls && s.calls[id].job.WriteOver? && s.calls[id].job.etag.Exactly? ==>
      && s.calls[id].job.etag.version.tag < s.next
      && (s.calls[id].phase.Writing? ==>
            s.calls[id].phase.seen == Some(s.calls[id].job.etag.version) || s.cell != Some(s.calls[id].job.etag.version))
  }

  /** Conditional writes carry the etag of an earlier read, not the must-not-exist mark. */
  ghost predicate EtagsWereRead(t: Trace) {
    match t
    case First(_) => true
    case More(before, e, _) =>
      && EtagsWereRead(before)
      && (e.Begin? && e.job.WriteOver? ==> e.job.etag.Exactly? && e.job.etag.version.tag < before.state.next)
  }

  ghost predicate NoBlindWrite(s: State) {
    forall id :: id in s.calls && s.calls[id].job.WriteOver? ==> s.calls[id].job.etag.Exactly?
  }

  lemma {:induction false} NeverBlind(v: Vault, t: Trace)
    requires Run(v, t) && EtagsWereRead(t)
    ensures NoBlindWrite(t.state)
  {
    if t.More? {
      NeverBlind(v, t.before);
    }
  }

  lemma EtagStep(v: Vault, s: State, e: Event, s': State)
    requires Step(v, s, e, s') && v.kind.FreshNonce? && EtagSettled(s)
    requires e.Begin? && e.job.WriteOver? && e.job.etag.Exactly? ==> e.job.etag.version.tag < s.next
    ensures EtagSettled(s')
  {
    assert s.next <= s'.next;
    if e.Commit? || e.Outside? {
      assert s'.cell.Some? ==> s'.cell.value.tag == s.next;
    }
  }

  lemma {:induction false} EtagsSettle(v: Vault, t: Trace)
    requires Run(v, t) && v.kind.FreshNonce? && EtagsWereRead(t)
    ensures EtagSettled(t.state)
  {
    if t.More? {
      EtagsSettle(v, t.before);
      EtagStep(v, t.before.state, t.event, t.state);
    }
  }

  // ---- one step ----

  /** Of the last step of any run: a well-formed claim survives it unless the step is a commit of a job that may change
      that claim, or somebody wrote the file directly. */
  lemma ClaimChangesOnlyByRight(v: Vault, t: Trace)
    requires Run(v, t) && t.More? && v.kind.FreshNonce? && EtagsWereRead(t)
    requires ClaimOf(t.before.state.cell).Some? && ClaimOf(t.state.cell) != ClaimOf(t.before.state.cell)
    ensures t.event.Outside? ||
            (t.event.Commit? && MayChange(ClaimOf(t.before.state.cell).value, t.before.state.calls[t.event.id].job))
  {
    Linearizable(v, t);
    if t.event.Commit? {
      var s := t.before.state;
      var call := s.calls[t.event.id];
      AlwaysComputed(v, t.before);
      EtagsSettle(v, t.before);
      NeverBlind(v, t.before);
      if !MayChange(ClaimOf(s.cell).value, call.job) {
        assert TextOf(call.phase.seen) == TextOf(s.cell);
        DecisionKeepsClaim(v, call.job, call.phase.clock, TextOf(s.cell));
      }
    }
  }

  /** An unforced claim that succeeds finds no other machine's claim, is what the note then carries, and keeps its
      `since` when the same machine and task held the note already. */
  lemma ClaimTakesFreeNote(v: Vault, t: Trace)
    requires Run(v, t) && t.More? && t.event.Commit? && t.before.state.calls[t.event.id].job.ClaimNote?
    ensures var call := t.before.state.calls[t.event.id];
            var held := ClaimOf(t.before.state.cell);
            && (!call.job.force ==> held.None? || held.value.machine == call.job.machine)
            && call.phase.reply.Took? && call.phase.reply.claim.machine == call.job.machine
            && call.phase.reply.claim.task == call.job.task
            && (call.phase.clock.stamp != "" ==> ClaimOf(t.state.cell) == Some(call.phase.reply.claim))
            && (held.Some? && held.value.machine == call.job.machine && held.value.task == call.job.task ==>
                  call.phase.reply.claim.since == held.value.since)
  {
    Linearizable(v, t);
  }

  // ---- whole runs ----

  predicate Unforced(job: Job) {
    job.ClaimNote? && !job.force
  }

  /** The last `n` steps hold nothing that may end `held`. */
  ghost predicate Undisturbed(t: Trace, held: Claim, n: nat) {
    n == 0 ||
    (t.More? && !t.event.Outside? && Undisturbed(t.before, held, n - 1)
     && (t.event.Commit? && t.event.id in t.before.state.calls ==>
           !MayChange(held, t.before.state.calls[t.event.id].job)))
  }

  function Back(t: Trace, n: nat): Trace {
    if n == 0 || t.First? then t else Back(t.before, n - 1)
  }

  /** A claim stays on the note, `since` and all, until something that has the right to end it. */
  lemma {:induction false} ClaimLasts(v: Vault, t: Trace, held: Claim, n: nat)
    requires Run(v, t) && v.kind.FreshNonce? && EtagsWereRead(t)
    requires ClaimOf(Back(t, n).state.cell) == Some(held) && Undisturbed(t, held, n)
    ensures ClaimOf(t.state.cell) == Some(held)
  {
    if n > 0 {
      ClaimLasts(v, t.before, held, n - 1);
      if ClaimOf(t.state.cell) != Some(held) {
        ClaimChangesOnlyByRight(v, t);
      }
    }
  }

  /** Mutual exclusion: while a machine's claim lasts, no other machine's unforced claim succeeds. */
  lemma ClaimsExclude(v: Vault, t: Trace, held: Claim, n: nat)
    requires Run(v, t) && v.kind.FreshNonce? && EtagsWereRead(t)
    requires ClaimOf(Back(t, n).state.cell) == Some(held) && Undisturbed(t, held, n)
    ensures forall id, after | Step(v, t.state, Commit(id), after) ::
              Unforced(t.state.calls[id].job) ==> t.state.calls[id].job.machine == held.machine
  {
    ClaimLasts(v, t, held, n);
    forall id, after | Step(v, t.state, Commit(id), after)
      ensures Unforced(t.state.calls[id].job) ==> t.state.calls[id].job.machine == held.machine
    {
      if Unforced(t.state.calls[id].job) {
        ClaimTakesFreeNote(v, More(t, Commit(id), after));
      }
    }
  }

  // ---- where content hashes fall short ----

  /** The last step of a run did not end a claim without the right to. */
  ghost predicate SafeStep(t: Trace) {
    (t.More? && ClaimOf(t.before.state.cell).Some? && ClaimOf(t.state.cell) != ClaimOf(t.before.state.cell)) ==>
      t.event.Outside? ||
      (t.event.Commit? && t.event.id in t.before.state.calls
       && MayChange(ClaimOf(t.before.state.cell).value, t.before.state.calls[t.event.id].job))
  }

  ghost predicate ClaimsAreSafe(v: Vault) {
    forall t :: Run(v, t) && EtagsWereRead(t) ==> SafeStep(t)
  }

  /** The note was stored so at some moment of the run. */
  predicate Had(t: Trace, cell: Option<Version>) {
    t.state.cell == cell || (t.More? && Had(t.before, cell))
  }

  /** What a call about to write has seen was stored at some moment. */
  lemma {:induction false} SeenWasStored(v: Vault, t: Trace, id: nat)
    requires Run(v, t) && id in t.state.calls && t.state.calls[id].phase.Writing?
    ensures Had(t, t.state.calls[id].phase.seen)
  {
    if t.More? && id in t.before.state.calls && t.before.state.calls[id] == t.state.calls[id] {
      SeenWasStored(v, t.before, id);
    }
  }

  lemma WriteOverCarriesSeenClaim(v: Vault, job: Job, clock: Clock, current: Option<Text>)
    requires job.WriteOver?
    ensures var d := Decide(v.schema, v.key, job, clock, current);
      d.Put? ==> ClaimIn(Some(d.text)) == ClaimIn(current)
  {
  }

  /** In any vault, a commit ends a claim without the right to if and only if it is a conditional write whose call looked
      at a note with another claim than the one it overwrites. The version it matches was then not stored when the call
      looked, and is stored again: it has been given twice. */
  lemma LostExactly(v: Vault, t: Trace)
    requires Run(v, t) && t.More? && EtagsWereRead(t) && t.event.Commit? && ClaimOf(t.before.state.cell).Some?
    ensures var call := t.before.state.calls[t.event.id];
      && (!SafeStep(t) <==>
            call.job.WriteOver? && ClaimIn(TextOf(call.phase.seen)) != ClaimOf(t.before.state.cell))
      && (!SafeStep(t) ==>
            && t.before.state.cell == Some(call.job.etag.version)
            && call.phase.seen != Some(call.job.etag.version) && Had(t.before, call.phase.seen))
  {
    var s := t.before.state;
    var call := s.calls[t.event.id];
    AlwaysComputed(v, t.before);
    NeverBlind(v, t.before);
    SeenWasStored(v, t.before, t.event.id);
    if call.job.WriteOver? {
      WriteOverCarriesSeenClaim(v, call.job, call.phase.clock, TextOf(call.phase.seen));
    } else if !MayChange(ClaimOf(s.cell).value, call.job) {
      assert TextOf(call.phase.seen) == TextOf(s.cell);
      DecisionKeepsClaim(v, call.job, call.phase.clock, TextOf(s.cell));
    }
  }

  const MINE := Claim("m", "t", "", "s")
  const NOW := Clock("d", "s")

  function WitnessNote(claim: ClaimValue): Version {
    Version(Note(Front(map["updated" := "d", "date" := "d"], claim), "\n"), 0)
  }

  lemma Onward(v: Vault, t: Trace, e: Event, s: State) returns (longer: Trace)
    requires Run(v, t) && EtagsWereRead(t) && Step(v, t.state, e, s)
    requires e.Begin? && e.job.WriteOver? ==> e.job.etag.Exactly? && e.job.etag.version.tag < t.state.next
    ensures longer == More(t, e, s) && Run(v, longer) && EtagsWereRead(longer)
  {
    longer := More(t, e, s);
  }

  lemma WitnessDecisions(v: Vault)
    requires forall key, front :: v.schema.accepts(key, front)
    ensures var claimed, free := WitnessNote(Mapping(MINE)), WitnessNote(Absent);
            && Decide(v.schema, v.key, ReleaseNote(None), NOW, Some(claimed.text)) == Put(free.text, NoClaim)
            && Decide(v.schema, v.key, ClaimNote("m", "t", "", false), NOW, Some(free.text)) ==
                 Put(claimed.text, Took(Claim("m", "t", "", "s")))
            && Decide(v.schema, v.key, WriteOver(Front(map[], Absent), "", Exactly(claimed)), NOW, Some(free.text)) ==
                 Put(free.text, Nothing)
  {
    var fields: map<string, string> := map["updated" := "d", "date" := "d"];
    assert fields["updated" := "d"] == fields;
    var blank: map<string, string> := map[];
    assert blank["updated" := "d"]["date" := "d"] == fields;
    assert StripNewlines("\n") == StripNewlines("\n"[1..]) == "";
    var released := Front(fields, Mapping(MINE)).(claim := Absent);
    assert WithDates(released, NOW) == released;
    assert Dump(released, "\n") == Note(released, "\n");
  }

  /** Claimed, released, and a conditional write that looks for the claim once it is gone. */
  lemma ReleasedUnderWrite(v: Vault) returns (t: Trace)
    requires v.kind.ContentHash? && forall key, front :: v.schema.accepts(key, front)
    ensures Run(v, t) && EtagsWereRead(t) && t.state.cell == Some(WitnessNote(Absent)) && t.state.next == 1
    ensures t.state.calls.Keys == {0, 1} && t.state.calls[0] ==
      Call(WriteOver(Front(map[], Absent), "", Exactly(WitnessNote(Mapping(MINE)))),
           Writing(1, NOW, Some(WitnessNote(Absent)), WitnessNote(Absent).text, Nothing))
  {
    WitnessDecisions(v);
    var claimed, free := WitnessNote(Mapping(MINE)), WitnessNote(Absent);
    var write, release := WriteOver(Front(map[], Absent), "", Exactly(claimed)), ReleaseNote(None);
    t := First(State(Some(claimed), map[], 1));
    t := Onward(v, t, Begin(0, write), t.state.(calls := t.state.calls[0 := Call(write, Reading(1))]));
    t := Onward(v, t, Begin(1, release), t.state.(calls := t.state.calls[1 := Call(release, Reading(1))]));
    var releasing := Writing(1, NOW, Some(claimed), free.text, NoClaim);
    t := Onward(v, t, Read(1, NOW), t.state.(calls := t.state.calls[1 := Call(release, releasing)]));
    var released := Finished(Outcome.Stored(free, NoClaim));
    t := Onward(v, t, Commit(1), State(Some(free), t.state.calls[1 := Call(release, released)], 1));
    var writing := Writing(1, NOW, Some(free), free.text, Nothing);
    t := Onward(v, t, Read(0, NOW), t.state.(calls := t.state.calls[0 := Call(write, writing)]));
  }

  /** Claimed again within the second, a content hash gives the note its first version back, and that write drops the
      claim. */
  lemma LostClaim(v: Vault) returns (t: Trace)
    requires v.kind.ContentHash? && forall key, front :: v.schema.accepts(key, front)
    ensures Run(v, t) && EtagsWereRead(t) && !SafeStep(t)
  {
    WitnessDecisions(v);
    t := ReleasedUnderWrite(v);
    var claimed, free := WitnessNote(Mapping(MINE)), WitnessNote(Absent);
    var took, claim := Took(Claim("m", "t", "", "s")), ClaimNote("m", "t", "", false);
    t := Onward(v, t, Begin(2, claim), t.state.(calls := t.state.calls[2 := Call(claim, Reading(1))]));
    var claiming := Writing(1, NOW, Some(free), claimed.text, took);
    t := Onward(v, t, Read(2, NOW), t.state.(calls := t.state.calls[2 := Call(claim, claiming)]));
    var done := Finished(Outcome.Stored(claimed, took));
    t := Onward(v, t, Commit(2), State(Some(claimed), t.state.calls[2 := Call(claim, done)], 1));
    var overwrote := t.state.calls[0].(phase := Finished(Outcome.Stored(free, Nothing)));
    t := Onward(v, t, Commit(0), State(Some(free), t.state.calls[0 := overwrote], 1));
  }

  /** With a schema that accepts every note, claims are safe exactly when no version is ever used twice. */
  lemma SafeExactlyWithFreshVersions(v: Vault)
    requires forall key, front :: v.schema.accepts(key, front)
    ensures ClaimsAreSafe(v) <==> v.kind.FreshNonce?
  {
    if v.kind.FreshNonce? {
      forall t | Run(v, t) && EtagsWereRead(t) ensures SafeStep(t) {
        if t.More? && ClaimOf(t.before.state.cell).Some? && ClaimOf(t.state.cell) != ClaimOf(t.before.state.cell) {
          ClaimChangesOnlyByRight(v, t);
        }
      }
    } else {
      var t := LostClaim(v);
    }
  }
}
