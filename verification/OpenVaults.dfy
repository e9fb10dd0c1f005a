/** The table of open vaults: a lock around the table, a gate per key around opening one, use counts, and eviction of
    idle vaults (mindin/vault.py:421-516). */
module OpenVaults {
  import opened Texts

  type Key = string

  datatype Opened = Opened(vault: nat, used: real)

  /** Where a thread is between two sections that hold the table's lock. */
  datatype Phase =
    | Evicting(found: Option<nat>, leaving: set<nat>)
    | AtGate
    | Gated
    | Opening
    | Made(vault: nat)
    | Taken(vault: nat)
    | CatchingUp(vault: nat)
    | Using(vault: nat)
    | Ended
    | Leaked(vault: nat)

  datatype Thread = Thread(key: Key, hold: bool, phase: Phase)

  datatype Table = Table(open: map<Key, Opened>, inUse: map<Key, nat>)

  datatype State = State(table: Table, gates: map<Key, nat>, threads: map<nat, Thread>, closed: set<nat>, next: nat)

  datatype Event =
    | Enter(id: nat, key: Key, hold: bool, now: real)
    | CloseEvicted(id: nat, vault: nat)
    | LeftEvicted(id: nat)
    | LeaveFails(id: nat, vault: nat)
    | PassGate(id: nat)
    | TakeAgain(id: nat, now: real)
    | Open(id: nat)
    | OpenFails(id: nat)
    | Publish(id: nat, now: real)
    | LeaveGate(id: nat)
    | CaughtUp(id: nat)
    | CatchUpFails(id: nat)
    | Release(id: nat, now: real)

  datatype Trace = First(state: State) | More(before: Trace, event: Event, state: State)

  // ---- the sections under the lock ----

  predicate Idle(t: Table, key: Key, now: real, idleSeconds: real)
    requires key in t.open
  {
    now - t.open[key].used > idleSeconds && key !in t.inUse
  }

  function IdleKeys(t: Table, now: real, idleSeconds: real): set<Key> {
    set key | key in t.open && Idle(t, key, now, idleSeconds)
  }

  function Evicted(t: Table, now: real, idleSeconds: real): set<nat> {
    set key | key in IdleKeys(t, now, idleSeconds) :: t.open[key].vault
  }

  function AfterEvict(t: Table, now: real, idleSeconds: real): Table {
    t.(open := t.open - IdleKeys(t, now, idleSeconds))
  }

  function Found(t: Table, key: Key): Option<nat> {
    if key in t.open then Some(t.open[key].vault) else None
  }

  function Uses(t: Table, key: Key): nat {
    if key in t.inUse then t.inUse[key] else 0
  }

  function AfterTake(t: Table, key: Key, hold: bool, now: real): Table {
    if key !in t.open then t
    else Table(t.open[key := Opened(t.open[key].vault, now)],
               if hold then t.inUse[key := Uses(t, key) + 1] else t.inUse)
  }

  function AfterRelease(t: Table, key: Key, vault: nat, now: real): Table {
    Table(t.open[key := Opened(vault, now)],
          if Uses(t, key) <= 1 then t.inUse - {key} else t.inUse[key := Uses(t, key) - 1])
  }

  function With(s: State, id: nat, phase: Phase): State
    requires id in s.threads
  {
    s.(threads := s.threads[id := s.threads[id].(phase := phase)])
  }

  ghost predicate ThreadStep(s: State, e: Event, s': State)
    requires !e.Enter? && e.id in s.threads
  {
    var th := s.threads[e.id];
    match e
    case CloseEvicted(id, vault) =>
      && th.phase.Evicting? && vault in th.phase.leaving
      && s' == With(s, id, th.phase.(leaving := th.phase.leaving - {vault})).(closed := s.closed + {vault})
    case LeftEvicted(id) =>
      && th.phase.Evicting? && th.phase.leaving == {}
      && s' == With(s, id, if th.phase.found.Some? then CatchingUp(th.phase.found.value) else AtGate)
    case LeaveFails(id, vault) =>
      // Closing an evicted vault raises: the use already counted is never given back, the other vaults stay unclosed.
      && th.phase.Evicting? && vault in th.phase.leaving
      && s' == With(s, id, if th.hold && th.phase.found.Some? then Leaked(th.phase.found.value) else Ended)
                 .(closed := s.closed + {vault})
    case PassGate(id) =>
      th.phase.AtGate? && th.key !in s.gates && s' == With(s, id, Gated).(gates := s.gates[th.key := id])
    case TakeAgain(id, now) =>
      && th.phase.Gated?
      && var found := Found(s.table, th.key);
         s' == With(s, id, if found.Some? then Taken(found.value) else Opening)
                 .(table := AfterTake(s.table, th.key, th.hold, now))
    case Open(id) =>
      th.phase.Opening? && s' == With(s, id, Made(s.next)).(next := s.next + 1)
    case OpenFails(id) =>
      th.phase.Opening? && s' == With(s, id, Ended).(gates := s.gates - {th.key})
    case Publish(id, now) =>
      && th.phase.Made?
      && var shown := s.table.(open := s.table.open[th.key := Opened(th.phase.vault, now)]);
         s' == With(s, id, Taken(th.phase.vault)).(table := AfterTake(shown, th.key, th.hold, now))
    case LeaveGate(id) =>
      th.phase.Taken? && s' == With(s, id, CatchingUp(th.phase.vault)).(gates := s.gates - {th.key})
    case CaughtUp(id) =>
      th.phase.CatchingUp? && s' == With(s, id, if th.hold then Using(th.phase.vault) else Ended)
    case CatchUpFails(id) =>
      th.phase.CatchingUp? && s' == With(s, id, if th.hold then Leaked(th.phase.vault) else Ended)
    case Release(id, now) =>
      && th.phase.Using?
      && s' == With(s, id, Ended).(table := AfterRelease(s.table, th.key, th.phase.vault, now))
  }

  ghost predicate Step(idleSeconds: real, s: State, e: Event, s': State) {
    match e
    case Enter(id, key, hold, now) =>
      && id !in s.threads
      && var table := AfterEvict(s.table, now, idleSeconds);
         var phase := Evicting(Found(table, key), Evicted(s.table, now, idleSeconds));
         s' == s.(table := AfterTake(table, key, hold, now), threads := s.threads[id := Thread(key, hold, phase)])
    case _ => e.id in s.threads && ThreadStep(s, e, s')
  }

  ghost predicate Run(idleSeconds: real, t: Trace) {
    match t
    case First(s) => s == State(Table(map[], map[]), map[], map[], {}, s.next)
    case More(before, e, s) => Run(idleSeconds, before) && Step(idleSeconds, before.state, e, s)
  }

  // ---- the invariant ----

  /** The vault a thread has its hands on, when it counted itself as a user. */
  function Held(th: Thread): Option<nat> {
    if !th.hold then None
    else match th.phase
      case Evicting(found, _) => found
      case Taken(vault) => Some(vault)
      case CatchingUp(vault) => Some(vault)
      case Using(vault) => Some(vault)
      case Leaked(vault) => Some(vault)
      case _ => None
  }

  predicate InGate(th: Thread) {
    th.phase.Gated? || th.phase.Opening? || th.phase.Made? || th.phase.Taken?
  }

  function Counted(s: State, key: Key): set<nat> {
    set id | id in s.threads && s.threads[id].key == key && Held(s.threads[id]).Some?
  }

  ghost predicate Gates(s: State) {
    && (forall id :: id in s.threads && InGate(s.threads[id]) ==>
          s.threads[id].key in s.gates && s.gates[s.threads[id].key] == id)
    && (forall id :: id in s.threads && (s.threads[id].phase.Opening? || s.threads[id].phase.Made?) ==>
          s.threads[id].key !in s.table.open)
  }

  ghost predicate Holding(s: State) {
    && (forall key :: |Counted(s, key)| == Uses(s.table, key))
    && (forall key :: key in s.table.inUse ==> s.table.inUse[key] > 0)
    && (forall id :: id in s.threads ==> HolderSound(s, s.threads[id]))
  }

  predicate HolderSound(s: State, th: Thread) {
    && (Held(th).Some? ==> Found(s.table, th.key) == Held(th))
    && (th.phase.Using? || th.phase.Leaked? ==> th.hold)
  }

  /** The vaults on their way out. */
  function Leaving(th: Thread): set<nat> {
    if th.phase.Evicting? then th.phase.leaving else {}
  }

  function Making(th: Thread): set<nat> {
    if th.phase.Made? then {th.phase.vault} else {}
  }

  /** Vaults that were closed, or are about to be. */
  ghost predicate Gone(s: State, vault: nat) {
    vault in s.closed || exists id :: id in s.threads && vault in Leaving(s.threads[id])
  }

  ghost predicate Known(s: State) {
    && (forall vault: nat :: Gone(s, vault) ==> vault < s.next)
    && (forall key :: key in s.table.open ==> s.table.open[key].vault < s.next)
    && (forall id, vault :: id in s.threads && vault in Making(s.threads[id]) ==> vault < s.next)
  }

  ghost predicate Alive(s: State) {
    && (forall key :: key in s.table.open ==> !Gone(s, s.table.open[key].vault))
    && (forall id, vault :: id in s.threads && vault in Making(s.threads[id]) ==> !Gone(s, vault))
  }

  ghost predicate Distinct(s: State) {
    && (forall key, other | key in s.table.open && other in s.table.open ::
          s.table.open[key].vault == s.table.open[other].vault ==> key == other)
    && (forall key, id :: key in s.table.open && id in s.threads ==>
          s.table.open[key].vault !in Making(s.threads[id]))
    && (forall id, other :: id in s.threads && other in s.threads && id != other ==>
          Making(s.threads[id]) !! Making(s.threads[other]))
  }

  ghost predicate Inv(s: State) {
    Gates(s) && Holding(s) && Known(s) && Alive(s) && Distinct(s)
  }

  lemma GateOwnersStep(idleSeconds: real, s: State, e: Event, s': State)
    requires Inv(s) && Step(idleSeconds, s, e, s')
    ensures forall id :: id in s'.threads && InGate(s'.threads[id]) ==>
              s'.threads[id].key in s'.gates && s'.gates[s'.threads[id].key] == id
  {
    OneThreadMoves(idleSeconds, s, e, s');
  }

  lemma OpenerStep(idleSeconds: real, s: State, e: Event, s': State, id: nat)
    requires Inv(s) && Step(idleSeconds, s, e, s') && id in s'.threads
    requires s'.threads[id].phase.Opening? || s'.threads[id].phase.Made?
    ensures s'.threads[id].key !in s'.table.open
  {
    OneThreadMoves(idleSeconds, s, e, s');
    OpenStep(idleSeconds, s, e, s');
    if e.Publish? {
      assert InGate(s.threads[id]) && InGate(s.threads[e.id]);
    }
  }

  lemma CountedMoves(s: State, id: nat, s': State, key: Key)
    requires id in s'.threads && s'.threads == s.threads[id := s'.threads[id]]
    requires id in s.threads ==> s'.threads[id].key == s.threads[id].key
    ensures Counted(s', key) ==
              if s'.threads[id].key != key then Counted(s, key)
              else Counted(s, key) - {id} + if Held(s'.threads[id]).Some? then {id} else {}
  {
    forall other | other in s.threads && other != id ensures s'.threads[other] == s.threads[other] {
    }
  }

  function HoldsOne(s: State, id: nat): int {
    if id in s.threads && Held(s.threads[id]).Some? then 1 else 0
  }

  lemma OneThreadMoves(idleSeconds: real, s: State, e: Event, s': State)
    requires Step(idleSeconds, s, e, s')
    ensures e.id in s'.threads && s'.threads == s.threads[e.id := s'.threads[e.id]]
    ensures e.id in s.threads ==> s'.threads[e.id].key == s.threads[e.id].key
                                  && s'.threads[e.id].hold == s.threads[e.id].hold
  {
  }

  lemma ReleaseUses(s: State, e: Event, s': State, key: Key)
    requires Inv(s) && e.Release? && e.id in s.threads && ThreadStep(s, e, s')
    ensures Uses(s'.table, key) == Uses(s.table, key) - if s.threads[e.id].key == key then 1 else 0
  {
    var th := s.threads[e.id];
    assert HolderSound(s, th);
    assert e.id in Counted(s, th.key);
  }

  lemma TakeUses(t: Table, key: Key, hold: bool, now: real, other: Key)
    ensures Uses(AfterTake(t, key, hold, now), other) ==
              Uses(t, other) + if other == key && hold && key in t.open then 1 else 0
  {
  }

  lemma EnterUses(idleSeconds: real, s: State, e: Event, s': State, key: Key)
    requires Step(idleSeconds, s, e, s') && e.Enter?
    ensures Uses(s'.table, key) == Uses(s.table, key) + if e.key == key then HoldsOne(s', e.id) else 0
  {
    TakeUses(AfterEvict(s.table, e.now, idleSeconds), e.key, e.hold, e.now, key);
  }

  lemma TakeAgainUses(s: State, e: Event, s': State, key: Key)
    requires (e.TakeAgain? || e.Publish?) && e.id in s.threads && ThreadStep(s, e, s')
    ensures Uses(s'.table, key) == Uses(s.table, key) + if s.threads[e.id].key == key then HoldsOne(s', e.id) else 0
    ensures HoldsOne(s, e.id) == 0
  {
    var th := s.threads[e.id];
    if e.TakeAgain? {
      TakeUses(s.table, th.key, th.hold, e.now, key);
    } else {
      TakeUses(s.table.(open := s.table.open[th.key := Opened(th.phase.vault, e.now)]), th.key, th.hold, e.now, key);
    }
  }

  lemma OtherUses(s: State, e: Event, s': State)
    requires !e.Enter? && e.id in s.threads && ThreadStep(s, e, s') && !e.Release? && !e.TakeAgain? && !e.Publish?
    ensures s'.table == s.table && HoldsOne(s', e.id) == HoldsOne(s, e.id)
  {
  }

  /** The use count of the acting thread's key moves with what that thread holds; no other count moves. */
  lemma UsesStep(idleSeconds: real, s: State, e: Event, s': State, key: Key)
    requires Inv(s) && Step(idleSeconds, s, e, s')
    ensures Uses(s'.table, key) == Uses(s.table, key) +
              if s'.threads[e.id].key == key then HoldsOne(s', e.id) - HoldsOne(s, e.id) else 0
  {
    if e.Enter? {
      EnterUses(idleSeconds, s, e, s', key);
    } else if e.Release? {
      assert HolderSound(s, s.threads[e.id]);
      ReleaseUses(s, e, s', key);
    } else if e.TakeAgain? || e.Publish? {
      TakeAgainUses(s, e, s', key);
    } else {
      OtherUses(s, e, s');
    }
  }

  lemma CountsStep(idleSeconds: real, s: State, e: Event, s': State, key: Key)
    requires Inv(s) && Step(idleSeconds, s, e, s')
    ensures |Counted(s', key)| == Uses(s'.table, key)
  {
    OneThreadMoves(idleSeconds, s, e, s');
    CountedMoves(s, e.id, s', key);
    UsesStep(idleSeconds, s, e, s', key);
  }

  lemma HeldEntryStaysInside(s: State, e: Event, s': State, key: Key)
    requires Inv(s) && !e.Enter? && e.id in s.threads && ThreadStep(s, e, s')
    requires key in s.table.open && key in s.table.inUse
    ensures Found(s'.table, key) == Found(s.table, key)
  {
    assert HolderSound(s, s.threads[e.id]);
  }

  /** What a section does to the entry of a key somebody holds. */
  lemma HeldEntryStays(idleSeconds: real, s: State, e: Event, s': State, key: Key)
    requires Inv(s) && Step(idleSeconds, s, e, s') && key in s.table.open && key in s.table.inUse
    ensures Found(s'.table, key) == Found(s.table, key)
  {
    if !e.Enter? {
      HeldEntryStaysInside(s, e, s', key);
    }
  }

  lemma EnterHolds(idleSeconds: real, s: State, e: Event, s': State)
    requires Inv(s) && Step(idleSeconds, s, e, s') && e.Enter?
    ensures HolderSound(s', s'.threads[e.id])
  {
  }

  lemma TakerHolds(idleSeconds: real, s: State, e: Event, s': State)
    requires Inv(s) && Step(idleSeconds, s, e, s') && (e.TakeAgain? || e.Publish?)
    ensures HolderSound(s', s'.threads[e.id])
  {
  }

  lemma ActorHolds(idleSeconds: real, s: State, e: Event, s': State)
    requires Inv(s) && Step(idleSeconds, s, e, s')
    ensures HolderSound(s', s'.threads[e.id])
  {
    if e.Enter? {
      EnterHolds(idleSeconds, s, e, s');
    } else if e.TakeAgain? || e.Publish? {
      TakerHolds(idleSeconds, s, e, s');
    } else if !e.Release? {
      QuietHolds(idleSeconds, s, e, s');
    }
  }

  /** Sections away from the table leave a thread with what it holds. */
  lemma QuietHolds(idleSeconds: real, s: State, e: Event, s': State)
    requires Inv(s) && Step(idleSeconds, s, e, s') && !e.Enter? && !e.Release? && !e.TakeAgain? && !e.Publish?
    ensures HolderSound(s', s'.threads[e.id])
  {
    OtherUses(s, e, s');
    KeepsHold(s, e, s');
    assert HolderSound(s, s.threads[e.id]);
  }

  lemma KeepsHold(s: State, e: Event, s': State)
    requires !e.Enter? && !e.Release? && !e.TakeAgain? && !e.Publish? && e.id in s.threads && ThreadStep(s, e, s')
    ensures e.id in s'.threads && s'.threads[e.id].key == s.threads[e.id].key
    ensures Held(s'.threads[e.id]).Some? ==> Held(s'.threads[e.id]) == Held(s.threads[e.id])
    ensures s'.threads[e.id].phase.Using? || s'.threads[e.id].phase.Leaked? ==> s'.threads[e.id].hold
  {
  }

  lemma HolderStep(idleSeconds: real, s: State, e: Event, s': State, id: nat)
    requires Inv(s) && Step(idleSeconds, s, e, s') && id in s.threads && id != e.id
    ensures id in s'.threads && HolderSound(s', s'.threads[id])
  {
    OneThreadMoves(idleSeconds, s, e, s');
    assert HolderSound(s, s.threads[id]);
    if Held(s.threads[id]).Some? {
      assert id in Counted(s, s.threads[id].key);
      HeldEntryStays(idleSeconds, s, e, s', s.threads[id].key);
    }
  }

  lemma GoneStep(idleSeconds: real, s: State, e: Event, s': State, vault: nat)
    requires Inv(s) && Step(idleSeconds, s, e, s')
    ensures Gone(s', vault) ==>
              Gone(s, vault) || (e.Enter? && vault in Evicted(s.table, e.now, idleSeconds))
  {
    if Gone(s', vault) && vault !in s.closed {
      if (e.CloseEvicted? || e.LeaveFails?) && vault == e.vault {
        assert vault in Leaving(s.threads[e.id]);
      } else {
        var id :| id in s'.threads && vault in Leaving(s'.threads[id]);
        if id in s.threads { assert vault in Leaving(s.threads[id]); }
      }
    }
  }

  lemma GoneIsKnown(idleSeconds: real, s: State, e: Event, s': State, vault: nat)
    requires Inv(s) && Step(idleSeconds, s, e, s') && Gone(s', vault)
    ensures vault < s.next
  {
    GoneStep(idleSeconds, s, e, s', vault);
  }

  lemma TableIsKnown(idleSeconds: real, s: State, e: Event, s': State, key: Key)
    requires Inv(s) && Step(idleSeconds, s, e, s') && key in s'.table.open
    ensures s'.table.open[key].vault < s.next
  {
    OpenStep(idleSeconds, s, e, s');
  }

  lemma KnownStep(idleSeconds: real, s: State, e: Event, s': State)
    requires Inv(s) && Step(idleSeconds, s, e, s')
    ensures Known(s')
  {
    MakingStep(idleSeconds, s, e, s');
    forall vault: nat | Gone(s', vault) ensures vault < s'.next {
      GoneIsKnown(idleSeconds, s, e, s', vault);
    }
    forall key | key in s'.table.open ensures s'.table.open[key].vault < s'.next {
      TableIsKnown(idleSeconds, s, e, s', key);
    }
  }

  /** An entry of the table is an old one, or the vault its thread just made. */
  lemma OpenStep(idleSeconds: real, s: State, e: Event, s': State)
    requires Inv(s) && Step(idleSeconds, s, e, s')
    ensures forall key :: key in s'.table.open ==>
              Found(s'.table, key) == Found(s.table, key)
              || (e.Publish? && key == s.threads[e.id].key && s'.table.open[key].vault in Making(s.threads[e.id]))
  {
    if !e.Enter? {
      assert HolderSound(s, s.threads[e.id]);
    }
  }

  lemma MakingStep(idleSeconds: real, s: State, e: Event, s': State)
    requires Inv(s) && Step(idleSeconds, s, e, s')
    ensures forall id :: id in s'.threads ==>
              Making(s'.threads[id]) == (if e.Open? && id == e.id then {s.next}
                                         else if e.Publish? && id == e.id then {}
                                         else if id in s.threads then Making(s.threads[id]) else {})
    ensures s.next <= s'.next && (e.Open? ==> s'.next == s.next + 1 && s'.table == s.table)
  {
    OneThreadMoves(idleSeconds, s, e, s');
    if e.id in s.threads && !e.Open? && !e.Publish? {
      assert Making(s'.threads[e.id]) == Making(s.threads[e.id]);
    }
  }

  lemma AliveStep(idleSeconds: real, s: State, e: Event, s': State)
    requires Inv(s) && Step(idleSeconds, s, e, s')
    ensures Alive(s')
  {
    OpenStep(idleSeconds, s, e, s');
    MakingStep(idleSeconds, s, e, s');
    forall key | key in s'.table.open ensures !Gone(s', s'.table.open[key].vault) {
      GoneStep(idleSeconds, s, e, s', s'.table.open[key].vault);
      if e.Enter? {
        assert key in s.table.open && key !in IdleKeys(s.table, e.now, idleSeconds);
      }
    }
    forall id, vault | id in s'.threads && vault in Making(s'.threads[id]) ensures !Gone(s', vault) {
      GoneStep(idleSeconds, s, e, s', vault);
    }
  }

  lemma EntriesDiffer(idleSeconds: real, s: State, e: Event, s': State, key: Key, other: Key)
    requires Inv(s) && Step(idleSeconds, s, e, s') && key in s'.table.open && other in s'.table.open
    ensures s'.table.open[key].vault == s'.table.open[other].vault ==> key == other
  {
    OpenStep(idleSeconds, s, e, s');
  }

  lemma MadeDiffer(idleSeconds: real, s: State, e: Event, s': State, id: nat)
    requires Inv(s) && Step(idleSeconds, s, e, s') && id in s'.threads
    ensures forall key :: key in s'.table.open ==> s'.table.open[key].vault !in Making(s'.threads[id])
    ensures forall other :: other in s'.threads && id != other ==> Making(s'.threads[id]) !! Making(s'.threads[other])
  {
    MakingStep(idleSeconds, s, e, s');
    OpenStep(idleSeconds, s, e, s');
  }

  lemma InvStep(idleSeconds: real, s: State, e: Event, s': State)
    requires Inv(s) && Step(idleSeconds, s, e, s')
    ensures Inv(s')
  {
    OneThreadMoves(idleSeconds, s, e, s');
    GateOwnersStep(idleSeconds, s, e, s');
    forall id | id in s'.threads && (s'.threads[id].phase.Opening? || s'.threads[id].phase.Made?)
      ensures s'.threads[id].key !in s'.table.open { OpenerStep(idleSeconds, s, e, s', id); }
    forall key ensures |Counted(s', key)| == Uses(s'.table, key) { CountsStep(idleSeconds, s, e, s', key); }
    forall id | id in s'.threads ensures HolderSound(s', s'.threads[id]) {
      if id == e.id { ActorHolds(idleSeconds, s, e, s'); } else { HolderStep(idleSeconds, s, e, s', id); }
    }
    PositiveUses(idleSeconds, s, e, s');
    KnownStep(idleSeconds, s, e, s');
    AliveStep(idleSeconds, s, e, s');
    forall key, other | key in s'.table.open && other in s'.table.open
      ensures s'.table.open[key].vault == s'.table.open[other].vault ==> key == other {
      EntriesDiffer(idleSeconds, s, e, s', key, other);
    }
    forall id | id in s'.threads
      ensures forall key :: key in s'.table.open ==> s'.table.open[key].vault !in Making(s'.threads[id])
      ensures forall other :: other in s'.threads && id != other ==>
                Making(s'.threads[id]) !! Making(s'.threads[other]) {
      MadeDiffer(idleSeconds, s, e, s', id);
    }
  }

  lemma PositiveUses(idleSeconds: real, s: State, e: Event, s': State)
    requires Inv(s) && Step(idleSeconds, s, e, s')
    ensures forall key :: key in s'.table.inUse ==> s'.table.inUse[key] > 0
  {
    if !e.Enter? && !e.Release? && !e.TakeAgain? && !e.Publish? {
      OtherUses(s, e, s');
    }
  }

  lemma {:induction false} AlwaysInv(idleSeconds: real, t: Trace)
    requires Run(idleSeconds, t)
    ensures Inv(t.state)
  {
    if t.More? {
      AlwaysInv(idleSeconds, t.before);
      InvStep(idleSeconds, t.before.state, t.event, t.state);
    } else {
      forall key ensures Counted(t.state, key) == {} {
      }
    }
  }

  // ---- what the table promises ----

  /** At most one thread opens the vault of a given key at a time. */
  lemma OneOpener(idleSeconds: real, t: Trace, id: nat, other: nat)
    requires Run(idleSeconds, t) && id in t.state.threads && other in t.state.threads
    requires t.state.threads[id].key == t.state.threads[other].key
    requires t.state.threads[id].phase.Opening? || t.state.threads[id].phase.Made?
    requires t.state.threads[other].phase.Opening? || t.state.threads[other].phase.Made?
    ensures id == other
  {
    AlwaysInv(idleSeconds, t);
    assert InGate(t.state.threads[id]) && InGate(t.state.threads[other]);
  }

  /** A vault in the table is never replaced by another, and a key that left the table has nobody using it. */
  lemma NeverOverwritten(idleSeconds: real, t: Trace, key: Key)
    requires Run(idleSeconds, t) && t.More? && key in t.before.state.table.open
    ensures key in t.state.table.open ==>
              t.state.table.open[key].vault == t.before.state.table.open[key].vault
    ensures key !in t.state.table.open ==> Counted(t.before.state, key) == {}
  {
    var s := t.before.state;
    AlwaysInv(idleSeconds, t.before);
    OpenStep(idleSeconds, s, t.event, t.state);
    if key !in t.state.table.open && Counted(s, key) != {} {
      assert key in s.table.inUse;
      HeldEntryStays(idleSeconds, s, t.event, t.state, key);
    }
  }

  /** Whoever holds a vault holds the one in the table, which is neither closed nor about to be; so all holders of a key
      share one vault. */
  lemma HeldVaultIsOpen(idleSeconds: real, t: Trace, id: nat)
    requires Run(idleSeconds, t) && id in t.state.threads && Held(t.state.threads[id]).Some?
    ensures Found(t.state.table, t.state.threads[id].key) == Held(t.state.threads[id])
    ensures !Gone(t.state, Held(t.state.threads[id]).value)
    ensures forall other | other in Counted(t.state, t.state.threads[id].key) ::
              Held(t.state.threads[other]) == Held(t.state.threads[id])
  {
    AlwaysInv(idleSeconds, t);
    forall other | other in t.state.threads ensures HolderSound(t.state, t.state.threads[other]) {
    }
  }

  /** The threads that will still give their use of `key` back. */
  function Users(s: State, key: Key): set<nat> {
    set id | id in s.threads && s.threads[id].key == key && Held(s.threads[id]).Some? && !s.threads[id].phase.Leaked?
  }

  function Leaks(s: State, key: Key): set<nat> {
    set id | id in s.threads && s.threads[id].key == key && s.threads[id].phase.Leaked?
  }

  /** An exception that ends a thread after it has counted itself as a user of the key: `catch_up` raised, or closing a
      vault it had evicted did. */
  predicate LosesUse(s: State, e: Event, key: Key) {
    && !e.Enter? && e.id in s.threads && s.threads[e.id].key == key && s.threads[e.id].hold
    && (e.CatchUpFails? || (e.LeaveFails? && s.threads[e.id].phase.Evicting? && s.threads[e.id].phase.found.Some?))
  }

  /** How often that has happened. */
  function UsesLost(t: Trace, key: Key): nat {
    if t.First? then 0 else UsesLost(t.before, key) + if LosesUse(t.before.state, t.event, key) then 1 else 0
  }

  lemma LeaksStep(idleSeconds: real, s: State, e: Event, s': State, key: Key)
    requires Step(idleSeconds, s, e, s')
    ensures Leaks(s', key) == Leaks(s, key) + if LosesUse(s, e, key) then {e.id} else {}
    ensures LosesUse(s, e, key) ==> e.id !in Leaks(s, key)
  {
    OneThreadMoves(idleSeconds, s, e, s');
    LeaksByOne(idleSeconds, s, e, s');
    forall id | id in s.threads && id != e.id ensures s'.threads[id] == s.threads[id] {
    }
  }

  lemma LeaksByOne(idleSeconds: real, s: State, e: Event, s': State)
    requires Step(idleSeconds, s, e, s')
    ensures e.id in s'.threads
    ensures s'.threads[e.id].phase.Leaked? <==> LosesUse(s, e, s'.threads[e.id].key)
    ensures e.id in s.threads ==> !s.threads[e.id].phase.Leaked?
  {
  }

  lemma {:induction false} LeaksAreLost(idleSeconds: real, t: Trace, key: Key)
    requires Run(idleSeconds, t)
    ensures |Leaks(t.state, key)| == UsesLost(t, key)
  {
    if t.More? {
      LeaksAreLost(idleSeconds, t.before, key);
      LeaksStep(idleSeconds, t.before.state, t.event, t.state, key);
    } else {
      assert Leaks(t.state, key) == {};
    }
  }

  /** The use count is the number of users plus the number of exceptions that lost a use of the key; so it is the number
      of users if and only if no `catch_up`, and no closing of an evicted vault, has raised for a holder of it. */
  lemma UseCountIsUsers(idleSeconds: real, t: Trace, key: Key)
    requires Run(idleSeconds, t)
    ensures Uses(t.state.table, key) == |Users(t.state, key)| + UsesLost(t, key)
    ensures Uses(t.state.table, key) == |Users(t.state, key)| <==> UsesLost(t, key) == 0
  {
    AlwaysInv(idleSeconds, t);
    CountedSplits(t.state, key);
    LeaksAreLost(idleSeconds, t, key);
  }

  lemma CountedSplits(s: State, key: Key)
    requires forall id :: id in s.threads ==> HolderSound(s, s.threads[id])
    ensures |Counted(s, key)| == |Users(s, key)| + |Leaks(s, key)|
  {
    forall id | id in Leaks(s, key) ensures id in Counted(s, key) {
      assert HolderSound(s, s.threads[id]);
    }
    assert Counted(s, key) == Users(s, key) + Leaks(s, key);
    assert Users(s, key) !! Leaks(s, key);
  }

  /** A leaked use pins its vault: no later step evicts it. */
  lemma LeakPins(idleSeconds: real, t: Trace, id: nat)
    requires Run(idleSeconds, t) && t.More? && id in t.before.state.threads && t.before.state.threads[id].phase.Leaked?
    ensures id in t.state.threads && t.state.threads[id] == t.before.state.threads[id]
    ensures Found(t.state.table, t.state.threads[id].key) == Some(t.state.threads[id].phase.vault)
  {
    LeakStays(idleSeconds, t.before.state, t.event, t.state, id);
    AlwaysInv(idleSeconds, t);
    assert HolderSound(t.state, t.state.threads[id]);
  }

  lemma LeakStays(idleSeconds: real, s: State, e: Event, s': State, id: nat)
    requires Step(idleSeconds, s, e, s') && id in s.threads && s.threads[id].phase.Leaked?
    ensures id in s'.threads && s'.threads[id] == s.threads[id]
  {
    OneThreadMoves(idleSeconds, s, e, s');
  }

  // ---- no gate stays shut, and no vault is forgotten ----

  predicate IsHeld(s: State, key: Key) {
    key in s.gates ==>
      s.gates[key] in s.threads && InGate(s.threads[s.gates[key]]) && s.threads[s.gates[key]].key == key
  }

  lemma GateStep(s: State, e: Event, s': State, key: Key)
    requires !e.Enter? && e.id in s.threads && ThreadStep(s, e, s') && IsHeld(s, key)
    ensures IsHeld(s', key)
  {
  }

  /** A shut gate is held by a thread that is inside it: so it opens when that thread leaves. */
  lemma {:induction false} GateIsHeld(idleSeconds: real, t: Trace, key: Key)
    requires Run(idleSeconds, t)
    ensures IsHeld(t.state, key)
  {
    if t.More? {
      GateIsHeld(idleSeconds, t.before, key);
      if !t.event.Enter? {
        GateStep(t.before.state, t.event, t.state, key);
      }
    }
  }

  predicate NoneFails(t: Trace) {
    t.More? ==> !t.event.LeaveFails? && NoneFails(t.before)
  }

  /** A vault is open under some key, or being made, or on its way out, or closed. */
  ghost predicate IsKept(s: State, vault: nat) {
    || (exists key :: key in s.table.open && s.table.open[key].vault == vault)
    || (exists id :: id in s.threads && vault in Making(s.threads[id]))
    || Gone(s, vault)
  }

  lemma EnterKeeps(idleSeconds: real, s: State, e: Event, s': State, vault: nat)
    requires Step(idleSeconds, s, e, s') && e.Enter? && IsKept(s, vault)
    ensures IsKept(s', vault)
  {
    assert s'.threads[e.id].phase.Evicting?;
    if key :| key in s.table.open && s.table.open[key].vault == vault {
      if Idle(s.table, key, e.now, idleSeconds) {
        assert key in IdleKeys(s.table, e.now, idleSeconds);
        assert vault in Leaving(s'.threads[e.id]);
      } else {
        assert key in s'.table.open && s'.table.open[key].vault == vault;
      }
    } else if id :| id in s.threads && vault in Making(s.threads[id]) {
      assert s'.threads[id] == s.threads[id];
    } else if vault !in s.closed {
      var id :| id in s.threads && vault in Leaving(s.threads[id]);
      assert s'.threads[id] == s.threads[id];
    }
  }

  lemma OpenKeyKeeps(idleSeconds: real, s: State, e: Event, s': State, key: Key)
    requires Inv(s) && Step(idleSeconds, s, e, s') && !e.Enter? && key in s.table.open
    ensures key in s'.table.open && s'.table.open[key].vault == s.table.open[key].vault
  {
    InsideKeepsOpen(s, e, s', key);
    OpenStep(idleSeconds, s, e, s');
    if e.Publish? {
      assert s.threads[e.id].key !in s.table.open;
    }
  }

  lemma WorkKeeps(idleSeconds: real, s: State, e: Event, s': State, vault: nat)
    requires Inv(s) && Step(idleSeconds, s, e, s') && !e.Enter? && !e.LeaveFails? && IsKept(s, vault)
    ensures IsKept(s', vault)
  {
    if key :| key in s.table.open && s.table.open[key].vault == vault {
      OpenKeyKeeps(idleSeconds, s, e, s', key);
    } else if id :| id in s.threads && vault in Making(s.threads[id]) {
      MakingIsKept(s, e, s', id, vault);
    } else if vault !in s.closed {
      var id :| id in s.threads && vault in Leaving(s.threads[id]);
      LeavingIsKept(s, e, s', id, vault);
    }
  }

  lemma MakingIsKept(s: State, e: Event, s': State, id: nat, vault: nat)
    requires !e.Enter? && e.id in s.threads && ThreadStep(s, e, s') && id in s.threads && vault in Making(s.threads[id])
    ensures IsKept(s', vault)
  {
    if e.id == id {
      assert e.Publish?;
      assert s'.table.open[s.threads[id].key].vault == vault;
    } else {
      assert s'.threads[id] == s.threads[id];
    }
  }

  lemma LeavingIsKept(s: State, e: Event, s': State, id: nat, vault: nat)
    requires !e.Enter? && !e.LeaveFails? && e.id in s.threads && ThreadStep(s, e, s')
    requires id in s.threads && vault in Leaving(s.threads[id])
    ensures Gone(s', vault)
  {
    if e.id == id {
      assert e.CloseEvicted?;
      if e.vault != vault {
        assert vault in Leaving(s'.threads[id]);
      }
    } else {
      assert s'.threads[id] == s.threads[id];
    }
  }

  /** No vault is forgotten: as long as closing never raises, every vault that was ever opened is in the table, about to
      be put there, about to be closed, or closed. */
  lemma {:induction false} NoVaultIsForgotten(idleSeconds: real, t: Trace, first: nat, vault: nat)
    requires Run(idleSeconds, t) && NoneFails(t) && first == FirstVault(t) && first <= vault < t.state.next
    ensures IsKept(t.state, vault)
  {
    if t.More? {
      AlwaysInv(idleSeconds, t.before);
      if vault < t.before.state.next {
        NoVaultIsForgotten(idleSeconds, t.before, first, vault);
        if t.event.Enter? {
          EnterKeeps(idleSeconds, t.before.state, t.event, t.state, vault);
        } else {
          WorkKeeps(idleSeconds, t.before.state, t.event, t.state, vault);
        }
      } else {
        assert t.event.Open? && vault in Making(t.state.threads[t.event.id]);
      }
    }
  }

  /** The number of the first vault that the run opens. */
  function FirstVault(t: Trace): nat {
    if t.First? then t.state.next else FirstVault(t.before)
  }

  // ---- when a vault leaves the table ----

  /** A section that finds the vault of the key in the table, puts it there, or gives it back. */
  predicate Touches(s: State, e: Event, s': State, key: Key) {
    && key in s'.table.open
    && match e
       case Enter(_, k, _, _) => k == key
       case TakeAgain(id, _) => id in s.threads && s.threads[id].key == key
       case Publish(id, _) => id in s.threads && s.threads[id].key == key
       case Release(id, _) => id in s.threads && s.threads[id].key == key
       case _ => false
  }

  function MomentOf(e: Event): real {
    match e
    case Enter(_, _, _, now) => now
    case TakeAgain(_, now) => now
    case Publish(_, now) => now
    case Release(_, now) => now
    case _ => 0.0
  }

  /** When the key's vault was last touched. */
  function LastTouch(t: Trace, key: Key): Option<real> {
    if t.First? then None
    else if Touches(t.before.state, t.event, t.state, key) then Some(MomentOf(t.event))
    else LastTouch(t.before, key)
  }

  ghost predicate Stamped(t: Trace) {
    forall key :: key in t.state.table.open ==> Some(t.state.table.open[key].used) == LastTouch(t, key)
  }

  lemma {:induction false} AlwaysStamped(idleSeconds: real, t: Trace)
    requires Run(idleSeconds, t)
    ensures Stamped(t)
  {
    if t.More? {
      AlwaysStamped(idleSeconds, t.before);
    }
  }

  lemma InsideKeepsOpen(s: State, e: Event, s': State, key: Key)
    requires !e.Enter? && e.id in s.threads && ThreadStep(s, e, s') && key in s.table.open
    ensures key in s'.table.open
  {
  }

  lemma EnteringEvicts(idleSeconds: real, s: State, e: Event, s': State, key: Key)
    requires Step(idleSeconds, s, e, s') && e.Enter? && key in s.table.open
    ensures key !in s'.table.open <==> key !in s.table.inUse && e.now - s.table.open[key].used > idleSeconds
  {
  }

  /** A vault leaves the table exactly when somebody enters, nobody uses it, and it was last touched longer than the
      idle time ago. */
  lemma LeavesExactlyWhenIdle(idleSeconds: real, t: Trace, key: Key)
    requires Run(idleSeconds, t) && t.More? && key in t.before.state.table.open
    ensures LastTouch(t.before, key).Some?
    ensures key !in t.state.table.open <==>
            && t.event.Enter? && Uses(t.before.state.table, key) == 0
            && MomentOf(t.event) - LastTouch(t.before, key).value > idleSeconds
  {
    AlwaysStamped(idleSeconds, t.before);
    AlwaysInv(idleSeconds, t.before);
    assert Holding(t.before.state);
    if t.event.Enter? {
      EnteringEvicts(idleSeconds, t.before.state, t.event, t.state, key);
    } else {
      InsideKeepsOpen(t.before.state, t.event, t.state, key);
    }
  }

  // ---- a run in which a vault is shared, and then evicted and closed ----

  lemma Goes(t: Trace, e: Event, s: State) returns (longer: Trace)
    requires Run(60.0, t) && Step(60.0, t.state, e, s)
    ensures Run(60.0, longer) && longer == More(t, e, s)
  {
    longer := More(t, e, s);
  }

  function OneThread(table: Table, gates: map<Key, nat>, phase: Phase, next: nat): State {
    State(table, gates, map[0 := Thread("k", true, phase)], {}, next)
  }

  const CLOSED_TABLE := Table(map[], map[])

  lemma VaultMissed() returns (t: Trace)
    ensures Run(60.0, t) && t.state == OneThread(CLOSED_TABLE, map[], AtGate, 0)
  {
    t := First(State(CLOSED_TABLE, map[], map[], {}, 0));
    assert IdleKeys(CLOSED_TABLE, 0.0, 60.0) == {} && Evicted(CLOSED_TABLE, 0.0, 60.0) == {};
    t := Goes(t, Enter(0, "k", true, 0.0), OneThread(CLOSED_TABLE, map[], Evicting(None, {}), 0));
    t := Goes(t, LeftEvicted(0), OneThread(CLOSED_TABLE, map[], AtGate, 0));
  }

  lemma VaultOpening() returns (t: Trace)
    ensures Run(60.0, t) && t.state == OneThread(CLOSED_TABLE, map["k" := 0], Opening, 0)
  {
    t := VaultMissed();
    t := Goes(t, PassGate(0), OneThread(CLOSED_TABLE, map["k" := 0], Gated, 0));
    t := Goes(t, TakeAgain(0, 1.0), OneThread(CLOSED_TABLE, map["k" := 0], Opening, 0));
  }

  lemma VaultOpened() returns (t: Trace)
    ensures Run(60.0, t) && t.state == OneThread(TableAt(2.0, 1), map["k" := 0], Taken(0), 1)
  {
    t := VaultOpening();
    t := Goes(t, Open(0), OneThread(CLOSED_TABLE, map["k" := 0], Made(0), 1));
    t := Goes(t, Publish(0, 2.0), OneThread(TableAt(2.0, 1), map["k" := 0], Taken(0), 1));
  }

  function TableAt(used: real, uses: nat): Table {
    Table(map["k" := Opened(0, used)], if uses == 0 then map[] else map["k" := uses])
  }

  lemma VaultUsed() returns (t: Trace)
    ensures Run(60.0, t) && t.state == OneThread(TableAt(2.0, 1), map[], Using(0), 1)
  {
    t := VaultOpened();
    t := Goes(t, LeaveGate(0), OneThread(TableAt(2.0, 1), map[], CatchingUp(0), 1));
    t := Goes(t, CaughtUp(0), OneThread(TableAt(2.0, 1), map[], Using(0), 1));
  }

  function TwoThreads(table: Table, first: Phase, second: Phase): State {
    State(table, map[], map[0 := Thread("k", true, first), 1 := Thread("k", true, second)], {}, 1)
  }

  lemma NothingIdle(used: real, uses: nat, now: real)
    requires now - used <= 60.0
    ensures AfterEvict(TableAt(used, uses), now, 60.0) == TableAt(used, uses)
    ensures Evicted(TableAt(used, uses), now, 60.0) == {}
  {
    var table := TableAt(used, uses);
    assert IdleKeys(table, now, 60.0) == {} && table.open - {} == table.open;
  }

  /** A second thread finds the vault open. */
  lemma VaultFound() returns (t: Trace)
    ensures Run(60.0, t) && t.state == TwoThreads(TableAt(3.0, 2), Using(0), Evicting(Some(0), {}))
  {
    t := VaultUsed();
    NothingIdle(2.0, 1, 3.0);
    assert AfterTake(TableAt(2.0, 1), "k", true, 3.0) == TableAt(3.0, 2);
    t := Goes(t, Enter(1, "k", true, 3.0), TwoThreads(TableAt(3.0, 2), Using(0), Evicting(Some(0), {})));
  }

  /** It shares it. */
  lemma VaultShared() returns (t: Trace)
    ensures Run(60.0, t) && t.state == TwoThreads(TableAt(3.0, 2), Using(0), Using(0))
  {
    t := VaultFound();
    t := Goes(t, LeftEvicted(1), TwoThreads(TableAt(3.0, 2), Using(0), CatchingUp(0)));
    t := Goes(t, CaughtUp(1), TwoThreads(TableAt(3.0, 2), Using(0), Using(0)));
  }

  lemma VaultGivenBack() returns (t: Trace)
    ensures Run(60.0, t) && t.state == TwoThreads(TableAt(4.0, 1), Using(0), Ended)
  {
    t := VaultShared();
    assert AfterRelease(TableAt(3.0, 2), "k", 0, 4.0) == TableAt(4.0, 1);
    t := Goes(t, Release(1, 4.0), TwoThreads(TableAt(4.0, 1), Using(0), Ended));
  }

  lemma VaultReleased() returns (t: Trace)
    ensures Run(60.0, t) && t.state == TwoThreads(TableAt(5.0, 0), Ended, Ended)
  {
    t := VaultGivenBack();
    assert AfterRelease(TableAt(4.0, 1), "k", 0, 5.0) == TableAt(5.0, 0);
    t := Goes(t, Release(0, 5.0), TwoThreads(TableAt(5.0, 0), Ended, Ended));
  }

  /** Given back by both, it is evicted once the idle time has passed, and closed. */
  lemma VaultEvicted() returns (t: Trace)
    ensures Run(60.0, t) && t.state.table == CLOSED_TABLE && 0 in t.state.closed
  {
    t := VaultReleased();
    var table := TableAt(5.0, 0);
    assert IdleKeys(table, 66.0, 60.0) == {"k"};
    assert Evicted(table, 66.0, 60.0) == {0} && AfterEvict(table, 66.0, 60.0) == CLOSED_TABLE;
    var entered := TwoThreads(CLOSED_TABLE, Ended, Ended);
    var third := Thread("other", false, Evicting(None, {0}));
    t := Goes(t, Enter(2, "other", false, 66.0), entered.(threads := entered.threads[2 := third]));
    assert {0} - {0} == {} && {} + {0} == {0};
    t := Goes(t, CloseEvicted(2, 0), With(t.state, 2, Evicting(None, {0} - {0})).(closed := t.state.closed + {0}));
  }

  // ---- the sections under the lock, as the object runs them ----

  class SubjectVaults {
    const idleSeconds: real
    var open: map<Key, Opened>
    var inUse: map<Key, nat>

    ghost function Contents(): Table
      reads this
    {
      Table(open, inUse)
    }

    constructor (idleSeconds: real)
      ensures Contents() == Table(map[], map[]) && this.idleSeconds == idleSeconds
    {
      this.idleSeconds := idleSeconds;
      open, inUse := map[], map[];
    }

    method Evict(now: real) returns (leaving: set<nat>)
      modifies this
      ensures Contents() == AfterEvict(old(Contents()), now, idleSeconds)
      ensures leaving == Evicted(old(Contents()), now, idleSeconds)
    {
      leaving := {};
      var todo := open.Keys;
      ghost var was := Contents();
      while todo != {}
        invariant todo <= was.open.Keys && inUse == was.inUse
        invariant open == was.open - (IdleKeys(was, now, idleSeconds) - todo)
        invariant leaving == set key | key in IdleKeys(was, now, idleSeconds) - todo :: was.open[key].vault
        decreases todo
      {
        var key :| key in todo;
        assert key in open && open[key] == was.open[key];
        if now - open[key].used > idleSeconds && key !in inUse {
          leaving := leaving + {open[key].vault};
          open := open - {key};
        }
        todo := todo - {key};
      }
    }

    method Take(key: Key, hold: bool, now: real) returns (found: Option<nat>)
      modifies this
      ensures Contents() == AfterTake(old(Contents()), key, hold, now) && found == Found(old(Contents()), key)
    {
      if key !in open { return None; }
      found := Some(open[key].vault);
      open := open[key := Opened(open[key].vault, now)];
      if hold {
        inUse := inUse[key := (if key in inUse then inUse[key] else 0) + 1];
      }
    }

    /** The first section of `_acquire`. */
    method Enter(key: Key, hold: bool, now: real) returns (found: Option<nat>, leaving: set<nat>)
      modifies this
      ensures var table := AfterEvict(old(Contents()), now, idleSeconds);
              && Contents() == AfterTake(table, key, hold, now) && found == Found(table, key)
              && leaving == Evicted(old(Contents()), now, idleSeconds)
    {
      leaving := Evict(now);
      found := Take(key, hold, now);
    }

    /** The section that puts an opened vault into the table and takes it. */
    method Publish(key: Key, vault: nat, hold: bool, now: real) returns (found: Option<nat>)
      modifies this
      ensures found == Some(vault)
      ensures var shown := old(Contents()).(open := old(open)[key := Opened(vault, now)]);
              Contents() == AfterTake(shown, key, hold, now)
    {
      open := open[key := Opened(vault, now)];
      found := Take(key, hold, now);
    }

    /** The end of `using_subject`. */
    method Release(key: Key, vault: nat, now: real)
      requires key in inUse && inUse[key] > 0
      modifies this
      ensures Contents() == AfterRelease(old(Contents()), key, vault, now)
    {
      inUse := inUse[key := inUse[key] - 1];
      if inUse[key] == 0 {
        inUse := inUse - {key};
      }
      open := open[key := Opened(vault, now)];
    }
  }
}
