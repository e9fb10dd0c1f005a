/** The cached listing under every interleaving of scans, writes, failed writes, patches and writes of other processes
    (mindin/backends/sealed.py:99-145, 161-204). */
module ListingRuns {
  import opened Texts
  import opened SealedListing

  /** A scan has read the generation, or reads the storage since `moment`; a write is at the storage, has its patch to
      do, or failed with its key in an unknown state. */
  datatype Thread =
    | Captured(started: nat)
    | Scanning(started: nat, moment: real, since: nat, base: map<Key, Object>)
    | Writing(key: Key)
    | Patching(key: Key, result: Option<Listed>)
    | Failing(key: Key)
    | Finished(returned: Option<seq<Entry>>)

  /** `changed` numbers the last change of each key in storage and `changes` counts them all; `foreign` is when another
      process last changed a key. `overlapping` are the keys that one has changed between this process's own write and
      its patch, `overlapped` is when such a patch was last done. */
  datatype State = State(
    storage: map<Key, Object>, listing: Option<Listing>, generation: nat, threads: map<nat, Thread>, now: real,
    changes: nat, changed: map<Key, nat>, foreign: map<Key, real>, overlapping: set<Key>, overlapped: map<Key, real>)

  datatype Event =
    | Look(id: nat)
    | BeginScan(id: nat)
    | EndScan(id: nat, entries: seq<Entry>)
    | StartWrite(id: nat, key: Key)
    | Put(id: nat, version: string, size: nat)
    | Delete(id: nat)
    | WriteFails(id: nat, cell: Option<Object>)
    | Patch(id: nat, entries: seq<Entry>)
    | Recover(id: nat)
    | Forget
    | Foreign(key: Key, cell: Option<Object>)
    | Tick(now: real)

  datatype Trace = First(state: State) | More(before: Trace, event: Event, state: State)

  function Shown(storage: map<Key, Object>, key: Key): Option<Listed> {
    if key in storage then Some(Plain(storage[key])) else None
  }

  predicate WritesTo(th: Thread, key: Key) {
    (th.Writing? || th.Patching? || th.Failing?) && th.key == key
  }

  ghost predicate InFlight(s: State, key: Key) {
    exists id :: id in s.threads && WritesTo(s.threads[id], key)
  }

  function Touched(s: State, key: Key, cell: Option<Object>): State {
    s.(storage := if cell.Some? then s.storage[key := cell.value] else s.storage - {key},
       changes := s.changes + 1, changed := s.changed[key := s.changes])
  }

  /** Storage after this process's own write of a key, which nobody has overlapped yet. */
  function Written(s: State, key: Key, cell: Option<Object>): State {
    Touched(s, key, cell).(overlapping := s.overlapping - {key})
  }

  ghost predicate IsPatching(s: State, key: Key) {
    exists id :: id in s.threads && s.threads[id].Patching? && s.threads[id].key == key
  }

  function Now(s: State, id: nat, th: Thread): State {
    s.(threads := s.threads[id := th])
  }

  predicate Dirty(s: State, key: Key, since: nat) {
    key in s.changed && s.changed[key] >= since
  }

  ghost predicate ThreadStep(s: State, e: Event, s': State)
    requires !e.Forget? && !e.Foreign? && !e.Tick? && !e.Look? && !e.StartWrite? && e.id in s.threads
  {
    var th := s.threads[e.id];
    match e
    case BeginScan(id) => th.Captured? && s' == Now(s, id, Scanning(th.started, s.now, s.changes, s.storage))
    case EndScan(id, entries) =>
      // The scan reads key by key: of a key that changed meanwhile it may show any state.
      && th.Scanning? && Sorted(entries)
      && (forall key :: !Dirty(s, key, th.since) ==> Lookup(entries, key) == Shown(th.base, key))
      && s' == Now(s, id, Finished(Some(entries)))
                 .(listing := if th.started == s.generation then Some(Listing(th.moment, entries)) else s.listing)
    case Put(id, version, size) =>
      && th.Writing?
      && s' == Now(Written(s, th.key, Some(Object(version, size + OVERHEAD))), id,
                   Patching(th.key, Some(Listed(version, size))))
    case Delete(id) =>
      && th.Writing? && s' == Now(Written(s, th.key, None), id, Patching(th.key, None))
    case WriteFails(id, cell) =>
      && th.Writing? && s' == Now(Touched(s, th.key, cell), id, Failing(th.key))
    case Patch(id, entries) =>
      && th.Patching?
      && (s.listing.Some? ==> Patches(s.listing.value.entries, th.key, th.result, entries))
      && s' == Now(s, id, Finished(None))
                 .(generation := s.generation + 1,
                   listing := if s.listing.Some? then Some(Listing(s.listing.value.moment, entries)) else None,
                   overlapped := if th.key in s.overlapping then s.overlapped[th.key := s.now] else s.overlapped)
    case Recover(id) =>
      && th.Failing? && s' == Now(s, id, Finished(None)).(generation := s.generation + 1, listing := None)
  }

  /** Two writes of this process never overlap on one key. */
  ghost predicate Step(s: State, e: Event, s': State) {
    match e
    case Look(id) =>
      && id !in s.threads
      && s' == Now(s, id, if s.listing.Some? && s.now - s.listing.value.moment < LISTING_TTL
                          then Finished(Some(s.listing.value.entries)) else Captured(s.generation))
    case StartWrite(id, key) => id !in s.threads && !InFlight(s, key) && s' == Now(s, id, Writing(key))
    case Forget => s' == s.(generation := s.generation + 1, listing := None)
    case Foreign(key, cell) =>
      && s' == Touched(s, key, cell)
                 .(foreign := s.foreign[key := s.now],
                   overlapping := if IsPatching(s, key) then s.overlapping + {key} else s.overlapping)
    case Tick(now) => s.now <= now && s' == s.(now := now)
    case _ => e.id in s.threads && ThreadStep(s, e, s')
  }

  ghost predicate Run(t: Trace) {
    match t
    case First(s) =>
      && s.listing.None? && s.threads == map[] && s.changed == map[] && s.foreign == map[]
      && s.overlapping == {} && s.overlapped == map[]
    case More(before, e, s) => Run(before) && Step(before.state, e, s)
  }

  // ---- the invariant ----

  /** Why a listing taken at `moment` may be wrong about a key: a write of it is under way, another process changed it
      since, or it was patched since by a write that another process had overlapped. */
  ghost predicate Excused(s: State, key: Key, moment: real) {
    || InFlight(s, key)
    || (key in s.foreign && s.foreign[key] >= moment)
    || (key in s.overlapped && s.overlapped[key] >= moment)
  }

  ghost predicate ListingSound(s: State) {
    s.listing.Some? ==>
      && s.listing.value.moment <= s.now && Sorted(s.listing.value.entries)
      && forall key :: !Excused(s, key, s.listing.value.moment) ==>
           Lookup(s.listing.value.entries, key) == Shown(s.storage, key)
  }

  ghost predicate ThreadSound(s: State, th: Thread) {
    match th
    case Captured(started) => started <= s.generation
    case Scanning(started, moment, since, base) =>
      && started <= s.generation && moment <= s.now && since <= s.changes
      && (forall key :: !Dirty(s, key, since) ==> Shown(base, key) == Shown(s.storage, key))
      && (started == s.generation ==> forall key :: Dirty(s, key, since) ==> Excused(s, key, moment))
    case Patching(key, result) => key !in s.overlapping ==> result == Shown(s.storage, key)
    case _ => true
  }

  ghost predicate Inv(s: State) {
    && ListingSound(s)
    && (forall id :: id in s.threads ==> ThreadSound(s, s.threads[id]))
    && (forall key :: key in s.changed ==> s.changed[key] < s.changes)
    && (forall id, other, key | id in s.threads && other in s.threads && WritesTo(s.threads[id], key) ::
          WritesTo(s.threads[other], key) ==> id == other)
  }

  /** Excuses only grow, except when a write of the key ends. */
  lemma ExcusesGrow(s: State, e: Event, s': State, key: Key, moment: real)
    requires Inv(s) && Step(s, e, s') && moment <= s.now && Excused(s, key, moment)
    ensures Excused(s', key, moment) ||
            ((e.Patch? || e.Recover?) && e.id in s.threads && WritesTo(s.threads[e.id], key))
  {
    if InFlight(s, key) {
      var id :| id in s.threads && WritesTo(s.threads[id], key);
      if id in s'.threads && s'.threads[id] == s.threads[id] {
        assert InFlight(s', key);
      } else if !e.Patch? && !e.Recover? {
        assert WritesTo(s'.threads[id], key);
      }
    }
  }

  /** A key that changes in storage is excused from then on. */
  lemma ChangeIsExcused(s: State, e: Event, s': State, key: Key, moment: real)
    requires Inv(s) && Step(s, e, s') && moment <= s.now
    requires Shown(s'.storage, key) != Shown(s.storage, key)
             || (key in s'.changed && (key !in s.changed || s'.changed[key] != s.changed[key]))
    ensures Excused(s', key, moment)
  {
    if !e.Foreign? {
      assert WritesTo(s'.threads[e.id], key);
    }
  }

  lemma ListingStep(s: State, e: Event, s': State)
    requires Inv(s) && Step(s, e, s')
    ensures ListingSound(s')
  {
    if s'.listing.Some? {
      var moment := s'.listing.value.moment;
      if e.EndScan? { assert ThreadSound(s, s.threads[e.id]); }
      if e.Patch? { assert ThreadSound(s, s.threads[e.id]); }
      assert moment <= s.now;
      forall key | !Excused(s', key, moment)
        ensures Lookup(s'.listing.value.entries, key) == Shown(s'.storage, key)
      {
        if Excused(s, key, moment) { ExcusesGrow(s, e, s', key, moment); }
        if Shown(s'.storage, key) != Shown(s.storage, key) { ChangeIsExcused(s, e, s', key, moment); }
      }
    }
  }

  lemma ScanStep(s: State, e: Event, s': State, id: nat)
    requires Inv(s) && Step(s, e, s') && id in s.threads && s.threads[id].Scanning?
    requires id in s'.threads && s'.threads[id] == s.threads[id]
    ensures ThreadSound(s', s'.threads[id])
  {
    var th := s.threads[id];
    assert ThreadSound(s, th);
    forall key | th.started == s'.generation && Dirty(s', key, th.since)
      ensures Excused(s', key, th.moment)
    {
      if Dirty(s, key, th.since) {
        ExcusesGrow(s, e, s', key, th.moment);
      } else {
        ChangeIsExcused(s, e, s', key, th.moment);
      }
    }
  }

  lemma OthersStep(s: State, e: Event, s': State, id: nat)
    requires Inv(s) && Step(s, e, s') && id in s'.threads
    ensures ThreadSound(s', s'.threads[id])
  {
    if id in s.threads && s'.threads[id] == s.threads[id] {
      assert ThreadSound(s, s.threads[id]);
      if s.threads[id].Scanning? {
        ScanStep(s, e, s', id);
      } else if s.threads[id].Patching? {
        assert WritesTo(s.threads[id], s.threads[id].key);
        assert InFlight(s, s.threads[id].key);
      }
    } else if id in s.threads {
      assert ThreadSound(s, s.threads[id]);
    }
  }

  lemma WriterWas(s: State, e: Event, s': State, id: nat, key: Key)
    requires Step(s, e, s') && id in s'.threads && WritesTo(s'.threads[id], key)
    ensures (id in s.threads && WritesTo(s.threads[id], key)) || (e == StartWrite(id, key) && !InFlight(s, key))
  {
  }

  lemma WritersStep(s: State, e: Event, s': State, id: nat, other: nat, key: Key)
    requires Inv(s) && Step(s, e, s') && id in s'.threads && other in s'.threads
    requires WritesTo(s'.threads[id], key) && WritesTo(s'.threads[other], key)
    ensures id == other
  {
    WriterWas(s, e, s', id, key);
    WriterWas(s, e, s', other, key);
  }

  lemma CountStep(s: State, e: Event, s': State)
    requires Inv(s) && Step(s, e, s')
    ensures forall key :: key in s'.changed ==> s'.changed[key] < s'.changes
  {
  }

  lemma {:induction false} AlwaysInv(t: Trace)
    requires Run(t)
    ensures Inv(t.state)
  {
    if t.More? {
      AlwaysInv(t.before);
      var s, e, s' := t.before.state, t.event, t.state;
      ListingStep(s, e, s');
      forall id | id in s'.threads ensures ThreadSound(s', s'.threads[id]) {
        OthersStep(s, e, s', id);
      }
      CountStep(s, e, s');
      forall id, other, key | id in s'.threads && other in s'.threads && WritesTo(s'.threads[id], key)
        ensures WritesTo(s'.threads[other], key) ==> id == other {
        if WritesTo(s'.threads[other], key) { WritersStep(s, e, s', id, other, key); }
      }
    }
  }

  lemma Onward(t: Trace, e: Event, s: State) returns (longer: Trace)
    requires Run(t) && Step(t.state, e, s)
    ensures longer == More(t, e, s) && Run(longer)
  {
    longer := More(t, e, s);
  }

  // ---- what a reader gets ----

  /** The cached listing is sorted by path and, for every path with no write of this process under way, agrees with
      storage on version and plain size, unless another process changed that path since the listing was taken, or an
      overlapped write of it was patched since. */
  lemma CacheIsCoherent(t: Trace, key: Key)
    requires Run(t) && t.state.listing.Some? && !InFlight(t.state, key)
    requires key in t.state.foreign ==> t.state.foreign[key] < t.state.listing.value.moment
    requires key in t.state.overlapped ==> t.state.overlapped[key] < t.state.listing.value.moment
    ensures Sorted(t.state.listing.value.entries)
    ensures Lookup(t.state.listing.value.entries, key) == Shown(t.state.storage, key)
  {
    AlwaysInv(t);
  }

  /** A reader that is answered from the cache sees every write another process made at least LISTING_TTL seconds ago;
      a path whose write was overlapped is right again that long after its patch. */
  lemma ForeignWriteShows(t: Trace, key: Key)
    requires Run(t) && t.More? && t.event.Look? && t.state.threads[t.event.id].Finished?
    requires !InFlight(t.before.state, key)
    requires key in t.before.state.foreign ==> t.before.state.foreign[key] <= t.before.state.now - LISTING_TTL
    requires key in t.before.state.overlapped ==> t.before.state.overlapped[key] <= t.before.state.now - LISTING_TTL
    ensures t.state.threads[t.event.id].returned.Some?
    ensures Sorted(t.state.threads[t.event.id].returned.value)
    ensures Lookup(t.state.threads[t.event.id].returned.value, key) == Shown(t.state.storage, key)
  {
    CacheIsCoherent(t.before, key);
  }

  /** A scan that nothing overtook is coherent too: it agrees with storage on every path that is not being written, that
      no other process changed since the scan began, and of which no overlapped write was patched since. */
  lemma ScanIsCoherent(t: Trace, key: Key)
    requires Run(t) && t.More? && t.event.EndScan? && !InFlight(t.state, key)
    requires t.before.state.threads[t.event.id].started == t.state.generation
    requires key in t.state.foreign ==> t.state.foreign[key] < t.before.state.threads[t.event.id].moment
    requires key in t.state.overlapped ==> t.state.overlapped[key] < t.before.state.threads[t.event.id].moment
    ensures t.state.listing.Some? && t.state.threads[t.event.id] == Finished(Some(t.state.listing.value.entries))
    ensures Lookup(t.state.listing.value.entries, key) == Shown(t.state.storage, key)
  {
    CacheIsCoherent(t, key);
  }

  // ---- exactly when a patch is right ----

  function ShownCell(cell: Option<Object>): Option<Listed> {
    if cell.Some? then Some(Plain(cell.value)) else None
  }

  /** What the last change that another process made since this thread's own write left under its key, if there was
      one. */
  function LeftByOthers(t: Trace, id: nat): Option<Option<Listed>> {
    if t.First? || ((t.event.Put? || t.event.Delete?) && t.event.id == id) then None
    else if t.event.Foreign? && id in t.before.state.threads && t.before.state.threads[id].Patching?
            && t.before.state.threads[id].key == t.event.key then Some(ShownCell(t.event.cell))
    else LeftByOthers(t.before, id)
  }

  /** While a thread waits to patch, only another process changes its key. */
  lemma KeyStays(s: State, e: Event, s': State, id: nat)
    requires Inv(s) && Step(s, e, s') && id in s.threads && s.threads[id].Patching?
    ensures Shown(s'.storage, s.threads[id].key) ==
            if e.Foreign? && e.key == s.threads[id].key then ShownCell(e.cell) else Shown(s.storage, s.threads[id].key)
  {
    var key := s.threads[id].key;
    assert WritesTo(s.threads[id], key);
    if e.Put? || e.Delete? || e.WriteFails? {
      assert s.threads[e.id].Writing? && s.threads[e.id].key != key;
    }
  }

  lemma OwnWrite(s: State, e: Event, s': State, id: nat)
    requires Step(s, e, s') && id in s'.threads && s'.threads[id].Patching?
    requires id !in s.threads || s.threads[id] != s'.threads[id]
    ensures (e.Put? || e.Delete?) && e.id == id
    ensures Shown(s'.storage, s'.threads[id].key) == s'.threads[id].result
  {
  }

  lemma OwnWriteIsNew(s: State, e: Event, s': State)
    requires Step(s, e, s') && (e.Put? || e.Delete?)
    ensures e.id in s.threads && s.threads[e.id].Writing?
  {
  }

  /** Between its own write and its patch a thread's key holds what it wrote, or what another process left there. */
  lemma {:induction false} KeyHolds(t: Trace, id: nat)
    requires Run(t) && id in t.state.threads && t.state.threads[id].Patching?
    ensures var th, left := t.state.threads[id], LeftByOthers(t, id);
      Shown(t.state.storage, th.key) == if left.Some? then left.value else th.result
  {
    var s, e := t.before.state, t.event;
    if id !in s.threads || s.threads[id] != t.state.threads[id] {
      OwnWrite(s, e, t.state, id);
    } else {
      AlwaysInv(t.before);
      KeyHolds(t.before, id);
      KeyStays(s, e, t.state, id);
      if e.Put? || e.Delete? {
        OwnWriteIsNew(s, e, t.state);
      }
    }
  }

  /** After a patch the listing is right about the key if and only if no other process changed it since this process's
      own write, or the last that did left the very version and size that this process had written. */
  lemma PatchIsRightExactly(t: Trace)
    requires Run(t) && t.More? && t.event.Patch? && t.state.listing.Some?
    ensures var th, left := t.before.state.threads[t.event.id], LeftByOthers(t.before, t.event.id);
      Lookup(t.state.listing.value.entries, th.key) == Shown(t.state.storage, th.key)
      <==> left.None? || left.value == th.result
  {
    KeyHolds(t.before, t.event.id);
  }

  // ---- when the cache is used, and what the exceptions are ----

  /** A reader is answered from a listing that is not too old, and otherwise has the store scanned. */
  lemma LooksExactly(t: Trace)
    requires Run(t) && t.More? && t.event.Look?
    ensures var s, th := t.before.state, t.state.threads[t.event.id];
      if s.listing.Some? && s.now - s.listing.value.moment < 5.0
      then th == Finished(Some(s.listing.value.entries)) else th == Captured(s.generation)
  {
  }

  /** Forgetting the listing leaves none, and no scan under way will be kept. */
  lemma ForgottenIsScanned(t: Trace, id: nat)
    requires Run(t) && t.More? && (t.event.Forget? || t.event.Recover?)
    ensures t.state.listing.None?
    ensures id in t.state.threads && t.state.threads[id].Scanning? ==> t.state.threads[id].started != t.state.generation
  {
    AlwaysInv(t.before);
    assert id in t.before.state.threads ==> ThreadSound(t.before.state, t.before.state.threads[id]);
  }

  lemma OverlapStays(s: State, e: Event, s': State, id: nat)
    requires Inv(s) && Step(s, e, s') && id in s.threads && s.threads[id].Patching?
    ensures s.threads[id].key in s'.overlapping <==>
            (e.Foreign? && e.key == s.threads[id].key) || s.threads[id].key in s.overlapping
  {
    var key := s.threads[id].key;
    assert WritesTo(s.threads[id], key) && IsPatching(s, key);
    if e.Put? || e.Delete? {
      assert s.threads[e.id].Writing? && s.threads[e.id].key != key;
    }
  }

  lemma OwnWriteIsAlone(s: State, e: Event, s': State, id: nat)
    requires Step(s, e, s') && (e.Put? || e.Delete?) && e.id == id
    ensures id in s'.threads && s'.threads[id].Patching? && s'.threads[id].key !in s'.overlapping
  {
  }

  /** While a thread waits to patch, its key counts as overlapped exactly when another process has changed it since. */
  lemma {:induction false} OverlapsExactly(t: Trace, id: nat)
    requires Run(t) && id in t.state.threads && t.state.threads[id].Patching?
    ensures t.state.threads[id].key in t.state.overlapping <==> LeftByOthers(t, id).Some?
  {
    var s, e := t.before.state, t.event;
    if id !in s.threads || s.threads[id] != t.state.threads[id] {
      OwnWrite(s, e, t.state, id);
      OwnWriteIsAlone(s, e, t.state, id);
    } else {
      AlwaysInv(t.before);
      OverlapsExactly(t.before, id);
      OverlapStays(s, e, t.state, id);
      if e.Put? || e.Delete? {
        OwnWriteIsNew(s, e, t.state);
      }
    }
  }

  /** The moment of a patch is kept for its key exactly when it patched over another process's change, and nothing else
      ever excuses a key so. */
  lemma OverlappedExactly(t: Trace)
    requires Run(t) && t.More?
    ensures t.state.overlapped ==
            if t.event.Patch? && LeftByOthers(t.before, t.event.id).Some?
            then t.before.state.overlapped[t.before.state.threads[t.event.id].key := t.state.now]
            else t.before.state.overlapped
  {
    if t.event.Patch? {
      OverlapsExactly(t.before, t.event.id);
    }
  }

  // ---- why keys written by both are excepted ----

  const MINE := Object("v1", OVERHEAD)
  const THEIRS := Object("v2", OVERHEAD + 1)
  const LISTED := Listed("v1", 0)
  const EMPTY := State(map[], None, 0, map[], 0.0, 0, map[], map[], {}, map[])

  function AfterOwn(): State {
    Now(Written(Now(EMPTY, 0, Writing("k")), "k", Some(MINE)), 0, Patching("k", Some(LISTED)))
  }

  function Overwritten(): State {
    Touched(AfterOwn(), "k", Some(THEIRS)).(foreign := map["k" := 0.0], overlapping := {"k"})
  }

  /** This process has written the key and not yet patched the listing. */
  lemma WroteFirst() returns (t: Trace)
    ensures Run(t) && t.state == AfterOwn()
  {
    assert !InFlight(EMPTY, "k");
    t := Onward(First(EMPTY), StartWrite(0, "k"), Now(EMPTY, 0, Writing("k")));
    t := Onward(t, Put(0, "v1", 0), AfterOwn());
  }

  /** Another process has written it again, and some time has passed. */
  lemma WroteOver() returns (t: Trace)
    ensures Run(t) && t.state == Overwritten().(now := 1.0)
  {
    t := WroteFirst();
    assert AfterOwn().threads[0].Patching? && IsPatching(AfterOwn(), "k");
    t := Onward(t, Foreign("k", Some(THEIRS)), Overwritten());
    t := Onward(t, Tick(1.0), Overwritten().(now := 1.0));
  }

  function ScanningState(): State {
    var s := Overwritten().(now := 1.0);
    Now(s, 1, Scanning(0, 1.0, s.changes, s.storage))
  }

  lemma ScanUnderWay() returns (t: Trace)
    ensures Run(t) && t.state == ScanningState()
  {
    t := WroteOver();
    var s := Overwritten().(now := 1.0);
    t := Onward(t, Look(1), Now(s, 1, Captured(0)));
    t := Onward(t, BeginScan(1), ScanningState());
  }

  lemma OneEntry(entry: Entry, key: Key)
    ensures Lookup([entry], key) == if key == entry.key then Some(entry.listed) else None
  {
    assert [entry][..0] == [];
  }

  lemma ScanCached() returns (t: Trace)
    ensures Run(t)
    ensures var scanned := [Entry("k", Plain(THEIRS))];
      t.state == Now(ScanningState(), 1, Finished(Some(scanned))).(listing := Some(Listing(1.0, scanned)))
  {
    t := ScanUnderWay();
    var scanned := [Entry("k", Plain(THEIRS))];
    forall k ensures Lookup(scanned, k) == Shown(ScanningState().storage, k) {
      OneEntry(scanned[0], k);
    }
    t := Onward(t, EndScan(1, scanned),
                Now(ScanningState(), 1, Finished(Some(scanned))).(listing := Some(Listing(1.0, scanned))));
  }

  /** Without the exception for keys written by both, the promise would be false: another process's write that lands
      between this process's write and its patch is hidden by the patch, however old it gets within the listing's
      life. */
  lemma PatchHidesForeignWrite() returns (t: Trace, key: Key)
    ensures Run(t) && t.state.listing.Some? && !InFlight(t.state, key)
    ensures key in t.state.foreign && t.state.foreign[key] < t.state.listing.value.moment
    ensures Lookup(t.state.listing.value.entries, key) != Shown(t.state.storage, key)
  {
    key := "k";
    t := ScanCached();
    var scanned, patched := [Entry(key, Plain(THEIRS))], [Entry(key, LISTED)];
    forall k ensures Lookup(patched, k) == if k == key then Some(LISTED) else Lookup(scanned, k) {
      OneEntry(patched[0], k);
      OneEntry(scanned[0], k);
    }
    assert Patches(scanned, key, Some(LISTED), patched);
    t := Onward(t, Patch(0, patched),
                Now(t.state, 0, Finished(None)).(generation := 1, listing := Some(Listing(1.0, patched)),
                                                    overlapped := map[key := 1.0]));
  }
}
