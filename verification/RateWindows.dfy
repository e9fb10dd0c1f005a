/** Rate limits: the window kept in memory, and the slot counter kept in the account store
    (mindin/auth/hosted_web.py:106-186). */
module RateWindows {
  import opened Texts

  const BLOCKED_KEYS := 10_000
  const SWEEP_KEYS := 10_000

  // ---- the window in memory ----

  /** The hits that still count at a moment. */
  function Recent(hits: seq<real>, seconds: real, moment: real): (recent: seq<real>)
    ensures |recent| <= |hits|
  {
    if hits == [] then []
    else if moment - hits[0] < seconds then [hits[0]] + Recent(hits[1..], seconds, moment)
    else Recent(hits[1..], seconds, moment)
  }

  predicate Rising(hits: seq<real>) {
    forall i, j :: 0 <= i < j < |hits| ==> hits[i] <= hits[j]
  }

  predicate AllBy(hits: seq<real>, moment: real) {
    forall i :: 0 <= i < |hits| ==> hits[i] <= moment
  }

  predicate Expired(hits: seq<real>, seconds: real, moment: real) {
    forall i :: 0 <= i < |hits| ==> moment - hits[i] >= seconds
  }

  /** What is kept of all the admitted hits: only hits that no longer count have been dropped. */
  predicate Keeps(all: seq<real>, kept: seq<real>, seconds: real, now: real) {
    && |kept| <= |all| && all[|all| - |kept|..] == kept
    && Expired(all[..|all| - |kept|], seconds, now)
  }

  lemma RecentOfOneMore(hit: real, rest: seq<real>, seconds: real, moment: real)
    ensures Recent([hit] + rest, seconds, moment) ==
            if moment - hit < seconds then [hit] + Recent(rest, seconds, moment) else Recent(rest, seconds, moment)
  {
    assert ([hit] + rest)[1..] == rest;
  }

  lemma {:induction false} RecentOfSum(a: seq<real>, b: seq<real>, seconds: real, moment: real)
    ensures Recent(a + b, seconds, moment) == Recent(a, seconds, moment) + Recent(b, seconds, moment)
  {
    if a == [] {
      assert a + b == b;
    } else {
      var hit, rest := a[0], a[1..];
      assert Recent(a + b, seconds, moment) ==
             if moment - hit < seconds then [hit] + Recent(rest + b, seconds, moment) else Recent(rest + b, seconds, moment)
      by {
        assert a + b == [hit] + (rest + b);
        RecentOfOneMore(hit, rest + b, seconds, moment);
      }
      RecentOfSum(rest, b, seconds, moment);
    }
  }

  lemma {:induction false} RecentOfFresh(hits: seq<real>, seconds: real, moment: real)
    requires forall i :: 0 <= i < |hits| ==> moment - hits[i] < seconds
    ensures Recent(hits, seconds, moment) == hits
  {
    if hits != [] {
      RecentOfFresh(hits[1..], seconds, moment);
    }
  }

  lemma {:induction false} RecentOfExpired(hits: seq<real>, seconds: real, moment: real)
    requires Expired(hits, seconds, moment)
    ensures Recent(hits, seconds, moment) == []
  {
    if hits != [] {
      RecentOfExpired(hits[1..], seconds, moment);
    }
  }

  /** The recent hits of a rising list are its tail. */
  lemma {:induction false} RecentIsATail(hits: seq<real>, seconds: real, moment: real)
    requires Rising(hits)
    ensures var recent := Recent(hits, seconds, moment);
      hits[|hits| - |recent|..] == recent && Expired(hits[..|hits| - |recent|], seconds, moment)
  {
    if hits != [] {
      if moment - hits[0] < seconds {
        RecentOfFresh(hits, seconds, moment);
      } else {
        var rest := hits[1..];
        RecentIsATail(rest, seconds, moment);
        var kept := |Recent(rest, seconds, moment)|;
        assert hits[|hits| - kept..] == rest[|rest| - kept..];
        assert hits[..|hits| - kept] == [hits[0]] + rest[..|rest| - kept];
      }
    }
  }

  lemma KeptDecides(all: seq<real>, kept: seq<real>, seconds: real, now: real, moment: real)
    requires Keeps(all, kept, seconds, now) && Rising(all) && now <= moment
    ensures Recent(kept, seconds, moment) == Recent(all, seconds, moment)
    ensures Keeps(all, Recent(kept, seconds, moment), seconds, moment)
  {
    var dropped := all[..|all| - |kept|];
    assert all == dropped + kept;
    RecentOfSum(dropped, kept, seconds, moment);
    RecentOfExpired(dropped, seconds, moment);
    RecentIsATail(all, seconds, moment);
  }

  /** Every hit was let in while fewer than `limit` counted. */
  predicate Admitted(all: seq<real>, limit: nat, seconds: real) {
    Rising(all) && forall i :: 0 <= i < |all| ==> |Recent(all[..i], seconds, all[i])| < limit
  }

  /** The hits of a window of the given length that ends at a moment. */
  function InWindow(all: seq<real>, seconds: real, end: real): seq<real> {
    if all == [] then []
    else InWindow(all[..|all| - 1], seconds, end)
         + if end - seconds < all[|all| - 1] <= end then [all[|all| - 1]] else []
  }

  /** The hits that still count are those of the window that ends now. */
  lemma {:induction false} RecentIsTheWindow(all: seq<real>, seconds: real, moment: real)
    requires AllBy(all, moment)
    ensures Recent(all, seconds, moment) == InWindow(all, seconds, moment)
  {
    if all != [] {
      var n := |all| - 1;
      RecentIsTheWindow(all[..n], seconds, moment);
      RecentOfSum(all[..n], [all[n]], seconds, moment);
      assert all == all[..n] + [all[n]];
    }
  }

  lemma {:induction false} WindowIsRecent(all: seq<real>, seconds: real, end: real, last: real)
    requires AllBy(all, last) && last <= end
    ensures |InWindow(all, seconds, end)| <= |Recent(all, seconds, last)|
  {
    if all != [] {
      var n := |all| - 1;
      WindowIsRecent(all[..n], seconds, end, last);
      RecentOfSum(all[..n], [all[n]], seconds, last);
      assert all == all[..n] + [all[n]];
    }
  }

  /** At most `limit` hits in any window, wherever it ends. */
  lemma {:induction false} AtMostLimitInAnyWindow(all: seq<real>, limit: nat, seconds: real, end: real)
    requires Admitted(all, limit, seconds)
    ensures |InWindow(all, seconds, end)| <= limit
  {
    if all != [] {
      var n := |all| - 1;
      assert Admitted(all[..n], limit, seconds) by {
        forall i | 0 <= i < n ensures |Recent(all[..n][..i], seconds, all[..n][i])| < limit {
          assert all[..n][..i] == all[..i];
        }
      }
      if end - seconds < all[n] <= end {
        WindowIsRecent(all[..n], seconds, end, all[n]);
      } else {
        AtMostLimitInAnyWindow(all[..n], limit, seconds, end);
      }
    }
  }

  function Get(hits: map<string, seq<real>>, key: string): seq<real> {
    if key in hits then hits[key] else []
  }

  /** The state of one address: what is kept, against everything that was admitted. */
  predicate Tracks(all: seq<real>, kept: seq<real>, limit: nat, seconds: real, now: real) {
    Admitted(all, limit, seconds) && AllBy(all, now) && Keeps(all, kept, seconds, now)
  }

  lemma Later(all: seq<real>, kept: seq<real>, limit: nat, seconds: real, now: real, moment: real)
    requires Tracks(all, kept, limit, seconds, now) && now <= moment
    ensures Tracks(all, kept, limit, seconds, moment)
    ensures Recent(kept, seconds, moment) == Recent(all, seconds, moment)
    ensures Tracks(all, Recent(kept, seconds, moment), limit, seconds, moment)
  {
    KeptDecides(all, kept, seconds, now, moment);
  }

  /** A list whose newest hit no longer counts may be forgotten. */
  lemma SweptAway(all: seq<real>, kept: seq<real>, limit: nat, seconds: real, moment: real)
    requires Tracks(all, kept, limit, seconds, moment) && kept != [] && moment - kept[|kept| - 1] >= seconds
    ensures Tracks(all, [], limit, seconds, moment)
  {
    assert all[..|all|] == all;
    forall i | 0 <= i < |all| ensures moment - all[i] >= seconds {
      assert all[i] <= all[|all| - 1] == kept[|kept| - 1];
    }
  }

  lemma OneMoreAdmitted(all: seq<real>, limit: nat, seconds: real, moment: real)
    requires Admitted(all, limit, seconds) && AllBy(all, moment) && |Recent(all, seconds, moment)| < limit
    ensures Admitted(all + [moment], limit, seconds)
  {
    var more := all + [moment];
    assert more[..|all|] == all;
    forall i | 0 <= i < |all| ensures |Recent(more[..i], seconds, more[i])| < limit {
      assert more[..i] == all[..i] && more[i] == all[i];
    }
  }

  lemma OneMore(all: seq<real>, kept: seq<real>, limit: nat, seconds: real, moment: real)
    requires Tracks(all, kept, limit, seconds, moment) && |Recent(all, seconds, moment)| < limit
    ensures Tracks(all + [moment], kept + [moment], limit, seconds, moment)
  {
    OneMoreAdmitted(all, limit, seconds, moment);
    OneMoreKept(all, kept, seconds, moment);
  }

  lemma OneMoreKept(all: seq<real>, kept: seq<real>, seconds: real, moment: real)
    requires Keeps(all, kept, seconds, moment)
    ensures Keeps(all + [moment], kept + [moment], seconds, moment)
  {
    var more, n := all + [moment], |all| - |kept|;
    assert more[n..] == all[n..] + [moment] && more[..n] == all[..n];
  }

  ghost predicate AllTrack(all: map<string, seq<real>>, hits: map<string, seq<real>>, limit: nat, seconds: real,
                           now: real) {
    && (forall key :: key in hits ==> hits[key] != [])
    && (forall key :: Tracks(Get(all, key), Get(hits, key), limit, seconds, now))
  }

  /** A property of every key's two lists survives when one key's lists are replaced by lists that have it. */
  lemma ReplaceOne(holds: (seq<real>, seq<real>) -> bool, all: map<string, seq<real>>, hits: map<string, seq<real>>,
                   key: string, after: map<string, seq<real>>, kept: seq<real>)
    requires forall k :: holds(Get(all, k), Get(hits, k))
    requires holds(Get(after, key), kept) && forall k :: k != key ==> Get(after, k) == Get(all, k)
    ensures forall k :: holds(Get(after, k), Get(hits[key := kept], k))
  {
    var hits' := hits[key := kept];
    forall k ensures holds(Get(after, k), Get(hits', k)) {
      if k != key {
        assert holds(Get(all, k), Get(hits, k)) && Get(hits', k) == Get(hits, k);
      }
    }
  }

  /** One key's lists replaced; `after` may hold the key or not, as long as it gives the right list for it. */
  lemma TrackOne(all: map<string, seq<real>>, hits: map<string, seq<real>>, limit: nat, seconds: real, now: real,
                 key: string, after: map<string, seq<real>>, kept: seq<real>)
    requires AllTrack(all, hits, limit, seconds, now) && kept != []
    requires Tracks(Get(after, key), kept, limit, seconds, now)
    requires forall other :: other != key ==> Get(after, other) == Get(all, other)
    ensures AllTrack(after, hits[key := kept], limit, seconds, now)
  {
    ReplaceOne((a, h) => Tracks(a, h, limit, seconds, now), all, hits, key, after, kept);
  }

  lemma TrackLater(all: map<string, seq<real>>, hits: map<string, seq<real>>, limit: nat, seconds: real, now: real,
                   moment: real)
    requires AllTrack(all, hits, limit, seconds, now) && now <= moment
    ensures AllTrack(all, hits, limit, seconds, moment)
  {
    forall key ensures Tracks(Get(all, key), Get(hits, key), limit, seconds, moment) {
      Later(Get(all, key), Get(hits, key), limit, seconds, now, moment);
    }
  }

  /** What is left of the kept hits decides as everything admitted would, and tracks it with or without one more. */
  lemma Verdict(all: map<string, seq<real>>, hits: map<string, seq<real>>, limit: nat, seconds: real, moment: real,
                key: string)
    requires AllTrack(all, hits, limit, seconds, moment)
    ensures var kept := Recent(Get(hits, key), seconds, moment);
      && kept == Recent(Get(all, key), seconds, moment)
      && Tracks(Get(all, key), kept, limit, seconds, moment)
      && (|kept| < limit ==> Tracks(Get(all, key) + [moment], kept + [moment], limit, seconds, moment))
  {
    var kept := Recent(Get(hits, key), seconds, moment);
    Later(Get(all, key), Get(hits, key), limit, seconds, moment, moment);
    if |kept| < limit {
      OneMore(Get(all, key), kept, limit, seconds, moment);
    }
  }

  class MemoryWindow {
    const limit: nat
    const seconds: real
    var hits: map<string, seq<real>>
    ghost var all: map<string, seq<real>>
    ghost var now: real

    /** The kept hits are the admitted ones, but for some that no longer count. */
    ghost predicate Valid()
      reads this
    {
      limit > 0 && AllTrack(all, hits, limit, seconds, now)
    }

    constructor (limit: nat, seconds: real, now: real)
      requires limit > 0
      ensures Valid() && this.limit == limit && this.seconds == seconds && this.now == now && all == map[]
    {
      this.limit, this.seconds, this.now := limit, seconds, now;
      hits, all := map[], map[];
    }

    method Sweep(moment: real)
      requires Valid() && now <= moment
      modifies this`hits, this`now
      ensures Valid() && now == moment
    {
      ghost var before := hits;
      hits := map key | key in hits && moment - hits[key][|hits[key]| - 1] < seconds :: hits[key];
      forall key ensures Tracks(Get(all, key), Get(hits, key), limit, seconds, moment) {
        Later(Get(all, key), Get(before, key), limit, seconds, now, moment);
        if key in before && key !in hits {
          SweptAway(Get(all, key), before[key], limit, seconds, moment);
        }
      }
      now := moment;
    }

    /** Sweeps when there are too many addresses. */
    method Prepare(moment: real)
      requires Valid() && now <= moment
      modifies this`hits, this`now
      ensures Valid() && now == moment
    {
      if |hits| > SWEEP_KEYS {
        Sweep(moment);
      }
      TrackLater(all, hits, limit, seconds, now, moment);
      now := moment;
    }

    /** Lets a hit in exactly when a window that remembered every admitted hit would. */
    method Allow(key: string, moment: real) returns (allowed: bool)
      requires Valid() && now <= moment
      modifies this
      ensures Valid() && now == moment
      ensures allowed <==> |Recent(Get(old(all), key), seconds, moment)| < limit
      ensures all == if allowed then old(all)[key := Get(old(all), key) + [moment]] else old(all)
    {
      Prepare(moment);
      var kept := Recent(Get(hits, key), seconds, moment);
      Verdict(all, hits, limit, seconds, moment, key);
      allowed := |kept| < limit;
      if allowed {
        Store(key, kept + [moment], all[key := Get(all, key) + [moment]], moment);
      } else {
        Store(key, kept, all, moment);
      }
    }

    method Store(key: string, kept: seq<real>, ghost after: map<string, seq<real>>, moment: real)
      requires limit > 0 && AllTrack(all, hits, limit, seconds, moment) && kept != []
      requires Tracks(Get(after, key), kept, limit, seconds, moment)
      requires forall other :: other != key ==> Get(after, other) == Get(all, other)
      modifies this
      ensures Valid() && now == moment && all == after
    {
      TrackOne(all, hits, limit, seconds, moment, key, after, kept);
      hits, all, now := hits[key := kept], after, moment;
    }
  }

  // ---- the slot counter ----

  function Slot(moment: real, seconds: real): int
    requires seconds > 0.0
  {
    (moment / seconds).Floor
  }

  /** What is left of a slot's window in the next slot. */
  function Weight(moment: real, seconds: real): real
    requires seconds > 0.0
  {
    Left(moment, seconds, Slot(moment, seconds) as real)
  }

  /** What is left, at a moment, of the slot that begins at the k-th multiple. */
  function Left(moment: real, seconds: real, k: real): real
    requires seconds > 0.0
  {
    1.0 - (moment - k * seconds) / seconds
  }

  lemma Cancels(a: real, b: real)
    requires b != 0.0
    ensures a / b * b == a
  {
  }

  lemma ProductRises(x: real, y: real, s: real)
    requires x <= y && s > 0.0
    ensures x * s <= y * s
    ensures x < y ==> x * s < y * s
  {
    assert (y - x) * s >= 0.0;
    assert y > x ==> (y - x) * s > 0.0;
    assert (y - x) * s == y * s - x * s;
  }

  lemma QuotientRises(a: real, b: real, s: real)
    requires s > 0.0
    ensures a <= b ==> a / s <= b / s
    ensures a < b ==> a / s < b / s
  {
    Cancels(a, s);
    Cancels(b, s);
    if a / s > b / s {
      ProductRises(b / s, a / s, s);
    }
    if a / s >= b / s {
      ProductRises(b / s, a / s, s);
    }
  }

  lemma OneLess(a: real, s: real, k: real)
    requires s > 0.0
    ensures (a - k * s) / s == a / s - k
  {
    Cancels(a, s);
    Cancels(a - k * s, s);
    var x, y := (a - k * s) / s, a / s - k;
    assert x * s == y * s;
    if x < y {
      ProductRises(x, y, s);
    } else if y < x {
      ProductRises(y, x, s);
    }
  }

  lemma WeightBetween(moment: real, seconds: real, k: real)
    requires seconds > 0.0 && k <= moment / seconds < k + 1.0
    ensures 0.0 < Left(moment, seconds, k) <= 1.0
  {
    OneLess(moment, seconds, k);
  }

  lemma FloorHolds(q: real)
    ensures q.Floor as real <= q < q.Floor as real + 1.0
  {
  }

  lemma SlotHolds(moment: real, seconds: real)
    requires seconds > 0.0
    ensures 0.0 < Weight(moment, seconds) <= 1.0
  {
    FloorHolds(moment / seconds);
    WeightBetween(moment, seconds, Slot(moment, seconds) as real);
  }

  lemma SlotsRise(a: real, b: real, seconds: real)
    requires seconds > 0.0 && a <= b
    ensures Slot(a, seconds) <= Slot(b, seconds)
  {
    QuotientRises(a, b, seconds);
  }

  lemma SlotNearby(hit: real, end: real, seconds: real)
    requires seconds > 0.0 && end - seconds < hit <= end
    ensures Slot(end, seconds) - 1 <= Slot(hit, seconds) <= Slot(end, seconds)
  {
    QuotientRises(hit, end, seconds);
    OneLess(end, seconds, 1.0);
    QuotientRises(end - 1.0 * seconds, hit, seconds);
    FloorHolds(hit / seconds);
    FloorHolds(end / seconds);
  }

  /** Within a slot the weight of the one before only falls. */
  lemma WeightFalls(a: real, b: real, seconds: real)
    requires seconds > 0.0 && a <= b && Slot(a, seconds) == Slot(b, seconds)
    ensures Weight(b, seconds) <= Weight(a, seconds)
  {
    var k := Slot(a, seconds) as real;
    QuotientRises(a - k * seconds, b - k * seconds, seconds);
  }

  // ---- counting by slots ----

  /** A hit as the counter sees it: its slot, and the weight of the slot before at that moment. */
  datatype Hit = Hit(slot: int, weight: real)

  function HitAt(moment: real, seconds: real): Hit
    requires seconds > 0.0
  {
    Hit(Slot(moment, seconds), Weight(moment, seconds))
  }

  function HitsAt(all: seq<real>, seconds: real): (hits: seq<Hit>)
    requires seconds > 0.0
    ensures |hits| == |all| && forall i :: 0 <= i < |all| ==> hits[i] == HitAt(all[i], seconds)
  {
    seq(|all|, i requires 0 <= i < |all| => HitAt(all[i], seconds))
  }

  function Count(hits: seq<Hit>, slot: int): nat {
    if hits == [] then 0 else Count(hits[..|hits| - 1], slot) + if hits[|hits| - 1].slot == slot then 1 else 0
  }

  /** The weighted count that a new hit is judged by. */
  function Estimate(hits: seq<Hit>, hit: Hit): real {
    Weighted(Count(hits, hit.slot - 1), hit.weight) + Count(hits, hit.slot) as real
  }

  function Weighted(count: nat, weight: real): real {
    count as real * weight
  }

  /** Every hit was let in while the estimate was below the limit. */
  predicate Counted(hits: seq<Hit>, limit: nat) {
    forall i :: 0 <= i < |hits| ==> 0.0 < hits[i].weight <= 1.0 && Estimate(hits[..i], hits[i]) < limit as real
  }

  lemma CountedBefore(hits: seq<Hit>, limit: nat)
    requires hits != [] && Counted(hits, limit)
    ensures Counted(hits[..|hits| - 1], limit)
    ensures Estimate(hits[..|hits| - 1], hits[|hits| - 1]) < limit as real
  {
    var n := |hits| - 1;
    forall i | 0 <= i < n
      ensures 0.0 < hits[..n][i].weight <= 1.0 && Estimate(hits[..n][..i], hits[..n][i]) < limit as real
    {
      assert hits[..n][..i] == hits[..i];
    }
  }

  lemma ProductNotNegative(x: real, y: real)
    requires x >= 0.0 && y >= 0.0
    ensures x * y >= 0.0
  {
  }

  lemma RoomInTheSlot(before: nat, weight: real, here: nat, limit: nat)
    requires weight > 0.0 && Weighted(before, weight) + here as real < limit as real
    ensures here + 1 <= limit
  {
    ProductNotNegative(before as real, weight);
  }

  /** At most `limit` hits in a slot. */
  lemma {:induction false} AtMostLimitInASlot(hits: seq<Hit>, limit: nat, slot: int)
    requires Counted(hits, limit)
    ensures Count(hits, slot) <= limit
  {
    if hits != [] {
      var n := |hits| - 1;
      CountedBefore(hits, limit);
      AtMostLimitInASlot(hits[..n], limit, slot);
      if hits[n].slot == slot {
        RoomInTheSlot(Count(hits[..n], slot - 1), hits[n].weight, Count(hits[..n], slot), limit);
      }
    }
  }

  lemma HitsBefore(all: seq<real>, seconds: real)
    requires seconds > 0.0 && all != []
    ensures HitsAt(all, seconds)[..|all| - 1] == HitsAt(all[..|all| - 1], seconds)
  {
  }

  /** A window as long as a slot touches two slots at most. */
  lemma {:induction false} WindowTouchesTwoSlots(all: seq<real>, seconds: real, end: real)
    requires seconds > 0.0
    ensures |InWindow(all, seconds, end)| <=
            Count(HitsAt(all, seconds), Slot(end, seconds) - 1) + Count(HitsAt(all, seconds), Slot(end, seconds))
  {
    if all != [] {
      var n := |all| - 1;
      WindowTouchesTwoSlots(all[..n], seconds, end);
      HitsBefore(all, seconds);
      if end - seconds < all[n] <= end {
        SlotNearby(all[n], end, seconds);
      }
    }
  }

  /** At most twice the limit in any window, wherever it ends. */
  lemma AtMostTwiceInAnyWindow(all: seq<real>, limit: nat, seconds: real, end: real)
    requires seconds > 0.0 && Counted(HitsAt(all, seconds), limit)
    ensures |InWindow(all, seconds, end)| <= 2 * limit
  {
    WindowTouchesTwoSlots(all, seconds, end);
    AtMostLimitInASlot(HitsAt(all, seconds), limit, Slot(end, seconds) - 1);
    AtMostLimitInASlot(HitsAt(all, seconds), limit, Slot(end, seconds));
  }

  lemma {:induction false} NothingLater(hits: seq<Hit>, slot: int)
    requires forall i :: 0 <= i < |hits| ==> hits[i].slot < slot
    ensures Count(hits, slot) == 0
  {
    if hits != [] {
      NothingLater(hits[..|hits| - 1], slot);
    }
  }

  /** A later moment of the same slot, or any moment of a later one. */
  predicate After(hits: seq<Hit>, now: Hit) {
    && (forall i :: 0 <= i < |hits| ==> hits[i].slot <= now.slot)
    && (hits != [] && hits[|hits| - 1].slot == now.slot ==> now.weight <= hits[|hits| - 1].weight)
    && (hits != [] ==> forall i :: 0 <= i < |hits| ==> hits[i].slot <= hits[|hits| - 1].slot)
  }

  lemma WeightedLess(count: nat, a: real, b: real)
    requires a <= b
    ensures Weighted(count, a) <= Weighted(count, b) && Weighted(count, 1.0) == count as real
  {
    if count > 0 {
      ProductRises(a, b, count as real);
    }
  }

  lemma SameSlotStaysBelow(hits: seq<Hit>, limit: nat, now: Hit)
    requires hits != [] && Counted(hits, limit) && After(hits, now) && hits[|hits| - 1].slot == now.slot
    ensures Estimate(hits, now) < limit as real + 1.0
  {
    var n := |hits| - 1;
    var before := Count(hits[..n], now.slot - 1);
    CountedBefore(hits, limit);
    WeightedLess(before, now.weight, hits[n].weight);
    assert Count(hits, now.slot - 1) == before && Count(hits, now.slot) == Count(hits[..n], now.slot) + 1;
  }

  lemma LaterSlotStaysBelow(hits: seq<Hit>, limit: nat, now: Hit)
    requires Counted(hits, limit) && now.weight <= 1.0 && forall i :: 0 <= i < |hits| ==> hits[i].slot < now.slot
    ensures Estimate(hits, now) <= limit as real
  {
    NothingLater(hits, now.slot);
    AtMostLimitInASlot(hits, limit, now.slot - 1);
    WeightedLess(Count(hits, now.slot - 1), now.weight, 1.0);
  }

  /** The weighted estimate never reaches one more than the limit, at any moment from the last hit on. */
  lemma EstimateStaysBelow(hits: seq<Hit>, limit: nat, now: Hit)
    requires Counted(hits, limit) && After(hits, now) && 0.0 < now.weight <= 1.0
    ensures Estimate(hits, now) < limit as real + 1.0
  {
    if hits != [] && hits[|hits| - 1].slot == now.slot {
      SameSlotStaysBelow(hits, limit, now);
    } else {
      LaterSlotStaysBelow(hits, limit, now);
    }
  }

  lemma MomentsGoOn(all: seq<real>, seconds: real, moment: real)
    requires seconds > 0.0 && Rising(all) && AllBy(all, moment)
    ensures After(HitsAt(all, seconds), HitAt(moment, seconds))
  {
    forall i | 0 <= i < |all|
      ensures Slot(all[i], seconds) <= Slot(moment, seconds) && Slot(all[i], seconds) <= Slot(all[|all| - 1], seconds)
    {
      SlotsRise(all[i], moment, seconds);
      SlotsRise(all[i], all[|all| - 1], seconds);
    }
    if all != [] && Slot(all[|all| - 1], seconds) == Slot(moment, seconds) {
      WeightFalls(all[|all| - 1], moment, seconds);
    }
  }

  // ---- the counter and the blocked addresses ----

  function Rows(rows: map<(string, int), nat>, key: string, slot: int): nat {
    if (key, slot) in rows then rows[(key, slot)] else 0
  }

  function GetAll(all: map<string, seq<real>>, key: string): seq<real> {
    if key in all then all[key] else []
  }

  /** The rows of a key agree with every hit ever admitted, from the slot before the current one on. */
  ghost predicate RowsAgree(rows: map<(string, int), nat>, hits: seq<Hit>, key: string, current: int) {
    forall slot: int :: slot >= current - 1 ==> Rows(rows, key, slot) == Count(hits, slot)
  }

  ghost predicate HitsCounted(rows: map<(string, int), nat>, hits: seq<Hit>, key: string, limit: nat, current: int) {
    Counted(hits, limit) && RowsAgree(rows, hits, key, current)
  }

  /** The estimate from the two rows that a hit asks for. */
  function RowEstimate(rows: map<(string, int), nat>, key: string, hit: Hit): real {
    Weighted(Rows(rows, key, hit.slot - 1), hit.weight) + Rows(rows, key, hit.slot) as real
  }

  lemma RowsGiveTheEstimate(rows: map<(string, int), nat>, hits: seq<Hit>, key: string, limit: nat, hit: Hit)
    requires HitsCounted(rows, hits, key, limit, hit.slot)
    ensures RowEstimate(rows, key, hit) == Estimate(hits, hit)
  {
  }

  lemma OneMoreCounted(hits: seq<Hit>, limit: nat, hit: Hit)
    requires Counted(hits, limit) && 0.0 < hit.weight <= 1.0 && Estimate(hits, hit) < limit as real
    ensures Counted(hits + [hit], limit)
    ensures forall slot :: Count(hits + [hit], slot) == Count(hits, slot) + if slot == hit.slot then 1 else 0
  {
    var more := hits + [hit];
    assert more[..|hits|] == hits;
    forall i | 0 <= i < |more| ensures 0.0 < more[i].weight <= 1.0 && Estimate(more[..i], more[i]) < limit as real {
      if i < |hits| {
        assert more[..i] == hits[..i] && more[i] == hits[i];
      } else {
        assert more[..i] == hits;
      }
    }
  }

  /** A hit counted in its row: the rows agree with one hit more. */
  lemma CountHit(rows: map<(string, int), nat>, hits: seq<Hit>, key: string, limit: nat, hit: Hit)
    requires HitsCounted(rows, hits, key, limit, hit.slot)
    requires 0.0 < hit.weight <= 1.0 && Estimate(hits, hit) < limit as real
    ensures HitsCounted(rows[(key, hit.slot) := Rows(rows, key, hit.slot) + 1], hits + [hit], key, limit, hit.slot)
  {
    OneMoreCounted(hits, limit, hit);
  }

  ghost predicate KeyCounted(rows: map<(string, int), nat>, all: seq<real>, key: string, limit: nat, seconds: real,
                             now: real)
    requires seconds > 0.0
  {
    Rising(all) && AllBy(all, now) && HitsCounted(rows, HitsAt(all, seconds), key, limit, Slot(now, seconds))
  }

  /** What holds of the hits that a counter has admitted for a key: at most `limit` in a slot, at most twice as many in
      any window, and an estimate below limit + 1 at any moment from now on. */
  lemma AdmittedStayBounded(rows: map<(string, int), nat>, all: seq<real>, key: string, limit: nat, seconds: real,
                            now: real, moment: real, end: real, slot: int)
    requires seconds > 0.0 && KeyCounted(rows, all, key, limit, seconds, now) && now <= moment
    ensures Count(HitsAt(all, seconds), slot) <= limit
    ensures |InWindow(all, seconds, end)| <= 2 * limit
    ensures Estimate(HitsAt(all, seconds), HitAt(moment, seconds)) < limit as real + 1.0
  {
    AtMostLimitInASlot(HitsAt(all, seconds), limit, slot);
    AtMostTwiceInAnyWindow(all, limit, seconds, end);
    MomentsGoOn(all, seconds, moment);
    SlotHolds(moment, seconds);
    EstimateStaysBelow(HitsAt(all, seconds), limit, HitAt(moment, seconds));
  }

  lemma StillCounted(rows: map<(string, int), nat>, all: seq<real>, key: string, limit: nat, seconds: real, now: real,
                     moment: real)
    requires seconds > 0.0 && now <= moment && KeyCounted(rows, all, key, limit, seconds, now)
    ensures KeyCounted(rows, all, key, limit, seconds, moment)
  {
    SlotsRise(now, moment, seconds);
  }

  ghost predicate AllCounted(rows: map<(string, int), nat>, all: map<string, seq<real>>, limit: nat, seconds: real,
                             now: real) {
    seconds > 0.0 && forall key :: KeyCounted(rows, GetAll(all, key), key, limit, seconds, now)
  }

  lemma CountOne(rows: map<(string, int), nat>, all: map<string, seq<real>>, limit: nat, seconds: real, key: string,
                 moment: real)
    requires AllCounted(rows, all, limit, seconds, moment)
    requires Estimate(HitsAt(GetAll(all, key), seconds), HitAt(moment, seconds)) < limit as real
    ensures var slot := Slot(moment, seconds);
      AllCounted(rows[(key, slot) := Rows(rows, key, slot) + 1], all[key := GetAll(all, key) + [moment]], limit, seconds,
                 moment)
  {
    var hit, hits := HitAt(moment, seconds), HitsAt(GetAll(all, key), seconds);
    var rows', all' := rows[(key, hit.slot) := Rows(rows, key, hit.slot) + 1], all[key := GetAll(all, key) + [moment]];
    assert KeyCounted(rows, GetAll(all, key), key, limit, seconds, moment);
    SlotHolds(moment, seconds);
    CountHit(rows, hits, key, limit, hit);
    assert HitsAt(GetAll(all', key), seconds) == hits + [hit];
    assert KeyCounted(rows', GetAll(all', key), key, limit, seconds, moment);
    forall other ensures KeyCounted(rows', GetAll(all', other), other, limit, seconds, moment) {
      if other != key {
        OtherCounted(rows, all, rows', limit, seconds, moment, key, other);
      }
    }
  }

  lemma OtherCounted(rows: map<(string, int), nat>, all: map<string, seq<real>>, after: map<(string, int), nat>,
                     limit: nat, seconds: real, moment: real, key: string, other: string)
    requires AllCounted(rows, all, limit, seconds, moment) && other != key
    requires forall slot: int :: Rows(after, other, slot) == Rows(rows, other, slot)
    ensures KeyCounted(after, GetAll(all, other), other, limit, seconds, moment)
  {
    assert KeyCounted(rows, GetAll(all, other), other, limit, seconds, moment);
    OtherRows(rows, after, HitsAt(GetAll(all, other), seconds), other, limit, Slot(moment, seconds));
  }

  lemma OtherRows(rows: map<(string, int), nat>, after: map<(string, int), nat>, hits: seq<Hit>, key: string, limit: nat,
                  current: int)
    requires HitsCounted(rows, hits, key, limit, current)
    requires forall slot: int :: Rows(after, key, slot) == Rows(rows, key, slot)
    ensures HitsCounted(after, hits, key, limit, current)
  {
  }

  class RateCounter {
    const limit: nat
    const seconds: real
    var rows: map<(string, int), nat>
    ghost var all: map<string, seq<real>>
    ghost var now: real

    ghost predicate Valid()
      reads this
    {
      AllCounted(rows, all, limit, seconds, now)
    }

    constructor (limit: nat, seconds: real, now: real)
      requires seconds > 0.0
      ensures Valid() && this.limit == limit && this.seconds == seconds && this.now == now && all == map[]
    {
      this.limit, this.seconds, this.now := limit, seconds, now;
      rows, all := map[], map[];
    }

    ghost method Advance(moment: real)
      requires Valid() && now <= moment
      modifies this`now
      ensures Valid() && now == moment
    {
      forall key ensures KeyCounted(rows, GetAll(all, key), key, limit, seconds, moment) {
        StillCounted(rows, GetAll(all, key), key, limit, seconds, now, moment);
      }
      now := moment;
    }

    /** Counts a hit, exactly when the estimate over everything ever admitted is below the limit. */
    method HitOnce(key: string, moment: real) returns (admitted: bool)
      requires Valid() && now <= moment
      modifies this
      ensures Valid() && now == moment
      ensures admitted <==> Estimate(HitsAt(GetAll(old(all), key), seconds), HitAt(moment, seconds)) < limit as real
      ensures all == if admitted then old(all)[key := GetAll(old(all), key) + [moment]] else old(all)
    {
      Advance(moment);
      var hit := HitAt(moment, seconds);
      var estimate := RowEstimate(rows, key, hit);
      RowsGiveTheEstimate(rows, HitsAt(GetAll(all, key), seconds), key, limit, hit);
      admitted := estimate < limit as real;
      if admitted {
        CountOne(rows, all, limit, seconds, key, moment);
        rows := rows[(key, hit.slot) := Rows(rows, key, hit.slot) + 1];
        all := all[key := GetAll(all, key) + [moment]];
      }
    }

    /** Forgets slots that no later moment asks for: every verdict stays the same. */
    method ForgetBefore(slot: int)
      requires Valid() && slot <= Slot(now, seconds) - 1
      modifies this`rows
      ensures Valid()
    {
      ghost var before := rows;
      rows := map row | row in rows && row.1 >= slot :: rows[row];
      forall key ensures KeyCounted(rows, GetAll(all, key), key, limit, seconds, now) {
        assert KeyCounted(before, GetAll(all, key), key, limit, seconds, now);
        assert forall s :: s >= slot ==> Rows(rows, key, s) == Rows(before, key, s);
      }
    }
  }

  /** When a slot ends. */
  function EndOf(slot: int, seconds: real): real {
    (slot as real + 1.0) * seconds
  }

  /** A moment is before the end of exactly its own slot and the later ones. */
  lemma BeforeTheEnd(moment: real, seconds: real, slot: int)
    requires seconds > 0.0
    ensures moment < EndOf(slot, seconds) <==> Slot(moment, seconds) <= slot
  {
    FloorHolds(moment / seconds);
    Cancels(moment, seconds);
    if moment / seconds >= slot as real + 1.0 {
      ProductRises(slot as real + 1.0, moment / seconds, seconds);
    } else {
      ProductRises(moment / seconds, slot as real + 1.0, seconds);
    }
  }

  /** At some moment of the slot, with the first `count` hits admitted so far, the counter refused. */
  ghost predicate RefusedThen(all: seq<real>, limit: nat, seconds: real, slot: int, moment: real, count: nat)
    requires seconds > 0.0
  {
    && count <= |all| && Slot(moment, seconds) == slot && AllBy(all[..count], moment)
    && Estimate(HitsAt(all[..count], seconds), HitAt(moment, seconds)) >= limit as real
  }

  /** The counter has refused the key in that slot. */
  ghost predicate WasRefused(all: seq<real>, limit: nat, seconds: real, slot: int, now: real)
    requires seconds > 0.0
  {
    exists moment: real, count: nat :: moment <= now && RefusedThen(all, limit, seconds, slot, moment, count)
  }

  /** A refusal stays one, whatever is admitted later, by this window or another. */
  lemma RefusedStays(all: seq<real>, more: seq<real>, limit: nat, seconds: real, slot: int, now: real, later: real)
    requires seconds > 0.0 && all <= more && now <= later && WasRefused(all, limit, seconds, slot, now)
    ensures WasRefused(more, limit, seconds, slot, later)
  {
    var moment: real, count: nat :| moment <= now && RefusedThen(all, limit, seconds, slot, moment, count);
    assert more[..count] == all[..count];
    assert RefusedThen(more, limit, seconds, slot, moment, count);
  }

  lemma RefusedNow(all: seq<real>, limit: nat, seconds: real, now: real)
    requires seconds > 0.0 && AllBy(all, now)
    requires Estimate(HitsAt(all, seconds), HitAt(now, seconds)) >= limit as real
    ensures WasRefused(all, limit, seconds, Slot(now, seconds), now)
  {
    assert all[..|all|] == all;
    assert RefusedThen(all, limit, seconds, Slot(now, seconds), now, |all|);
  }

  /** A blocked key waits for the end of a slot, begun by now, in which the counter has refused it. */
  ghost predicate Waits(all: seq<real>, until: real, limit: nat, seconds: real, now: real)
    requires seconds > 0.0
  {
    exists slot: int :: until == EndOf(slot, seconds) && slot <= Slot(now, seconds)
      && WasRefused(all, limit, seconds, slot, now)
  }

  lemma StillWaits(all: seq<real>, more: seq<real>, until: real, limit: nat, seconds: real, now: real, later: real)
    requires seconds > 0.0 && all <= more && now <= later && Waits(all, until, limit, seconds, now)
    ensures Waits(more, until, limit, seconds, later)
  {
    var slot: int :| until == EndOf(slot, seconds) && slot <= Slot(now, seconds)
      && WasRefused(all, limit, seconds, slot, now);
    SlotsRise(now, later, seconds);
    RefusedStays(all, more, limit, seconds, slot, now, later);
  }

  /** A key still blocked waits for the end of the present slot, in which the counter has refused it. */
  lemma WaitsForThisSlot(all: seq<real>, until: real, limit: nat, seconds: real, now: real)
    requires seconds > 0.0 && Waits(all, until, limit, seconds, now)
    ensures until > now <==> until == EndOf(Slot(now, seconds), seconds)
    ensures until > now ==> WasRefused(all, limit, seconds, Slot(now, seconds), now)
  {
    var slot: int :| until == EndOf(slot, seconds) && slot <= Slot(now, seconds)
      && WasRefused(all, limit, seconds, slot, now);
    BeforeTheEnd(now, seconds, slot);
    BeforeTheEnd(now, seconds, Slot(now, seconds));
  }

  ghost predicate AllWait(blocked: map<string, real>, all: map<string, seq<real>>, limit: nat, seconds: real, now: real) {
    seconds > 0.0 && forall key :: key in blocked ==> Waits(GetAll(all, key), blocked[key], limit, seconds, now)
  }

  /** Every list of admitted hits has only grown. */
  ghost predicate Admits(all: map<string, seq<real>>, more: map<string, seq<real>>) {
    forall key :: GetAll(all, key) <= GetAll(more, key)
  }

  lemma AllStillWait(blocked: map<string, real>, fewer: map<string, real>, all: map<string, seq<real>>,
                     more: map<string, seq<real>>, limit: nat, seconds: real, now: real, later: real)
    requires AllWait(blocked, all, limit, seconds, now) && now <= later && Admits(all, more)
    requires forall key :: key in fewer ==> key in blocked && fewer[key] == blocked[key]
    ensures AllWait(fewer, more, limit, seconds, later)
  {
    forall key | key in fewer ensures Waits(GetAll(more, key), fewer[key], limit, seconds, later) {
      StillWaits(GetAll(all, key), GetAll(more, key), blocked[key], limit, seconds, now, later);
    }
  }

  lemma OneMoreWaits(blocked: map<string, real>, all: map<string, seq<real>>, limit: nat, seconds: real, now: real,
                     key: string)
    requires AllWait(blocked, all, limit, seconds, now) && AllBy(GetAll(all, key), now)
    requires Estimate(HitsAt(GetAll(all, key), seconds), HitAt(now, seconds)) >= limit as real
    ensures AllWait(blocked[key := EndOf(Slot(now, seconds), seconds)], all, limit, seconds, now)
  {
    RefusedNow(GetAll(all, key), limit, seconds, now);
    assert Waits(GetAll(all, key), EndOf(Slot(now, seconds), seconds), limit, seconds, now);
  }

  /** The blocks after the sweep that the first question of a slot does. */
  function Unblocked(blocked: map<string, real>, swept: int, slot: int, moment: real): map<string, real> {
    if slot == swept then blocked else map name | name in blocked && blocked[name] > moment :: blocked[name]
  }

  /** The blocks after a refusal by the counter, unless there are too many. */
  function Blocked(blocked: map<string, real>, key: string, until: real): map<string, real> {
    if |blocked| < BLOCKED_KEYS then blocked[key := until] else blocked
  }

  predicate IsBlocked(blocked: map<string, real>, key: string, moment: real) {
    key in blocked && blocked[key] > moment
  }

  /** Whether the counter would let a hit in, given everything it ever admitted. */
  predicate LetsIn(all: map<string, seq<real>>, key: string, limit: nat, seconds: real, moment: real)
    requires seconds > 0.0
  {
    Estimate(HitsAt(GetAll(all, key), seconds), HitAt(moment, seconds)) < limit as real
  }

  /** The window's answer: not blocked, and let in by the counter. */
  predicate Allows(blocked: map<string, real>, all: map<string, seq<real>>, key: string, limit: nat, seconds: real,
                   moment: real)
    requires seconds > 0.0
  {
    !IsBlocked(blocked, key, moment) && LetsIn(all, key, limit, seconds, moment)
  }

  /** Forgetting blocks that are over unblocks nobody. */
  lemma UnblockingChangesNothing(blocked: map<string, real>, swept: int, slot: int, moment: real, key: string)
    ensures IsBlocked(Unblocked(blocked, swept, slot, moment), key, moment) <==> IsBlocked(blocked, key, moment)
  {
  }

  /** A refusal blocks that address and no other, while there is room. */
  lemma BlockingBlocks(blocked: map<string, real>, refused: string, until: real, moment: real, key: string)
    requires !IsBlocked(blocked, refused, moment)
    ensures IsBlocked(Blocked(blocked, refused, until), key, moment) <==>
            IsBlocked(blocked, key, moment) || (key == refused && until > moment && |blocked| < 10_000)
  {
  }

  /** The counter lets a hit in exactly when, with it, every hit was let in below the limit. */
  lemma LetsInExactly(all: map<string, seq<real>>, key: string, limit: nat, seconds: real, moment: real)
    requires seconds > 0.0 && Counted(HitsAt(GetAll(all, key), seconds), limit)
    ensures LetsIn(all, key, limit, seconds, moment) <==>
            Counted(HitsAt(GetAll(all, key) + [moment], seconds), limit)
  {
    var hits, hit := HitsAt(GetAll(all, key), seconds), HitAt(moment, seconds);
    SlotHolds(moment, seconds);
    assert HitsAt(GetAll(all, key) + [moment], seconds) == hits + [hit];
    var more := hits + [hit];
    assert more[..|hits|] == hits && more[|hits|] == hit;
    forall i | 0 <= i < |hits| ensures more[..i] == hits[..i] && more[i] == hits[i] {
    }
  }

  /** A window over the counter, which stops asking for an address until the slot in which it was refused is over. */
  class SharedWindow {
    const counter: RateCounter
    var blocked: map<string, real>
    var swept: int

    ghost predicate Valid()
      reads this, counter
    {
      counter.Valid() && AllWait(blocked, counter.all, counter.limit, counter.seconds, counter.now)
    }

    constructor (counter: RateCounter)
      requires counter.Valid()
      ensures Valid() && this.counter == counter && blocked == map[] && swept == 0
    {
      this.counter, blocked, swept := counter, map[], 0;
    }

    /** The first question of a slot forgets the blocks that are over, and the slots nobody asks for any more. */
    method Unblock(moment: real)
      requires Valid() && moment == counter.now
      modifies this, counter`rows
      ensures Valid() && counter.now == moment && swept == Slot(moment, counter.seconds)
      ensures blocked == Unblocked(old(blocked), old(swept), Slot(moment, counter.seconds), moment)
    {
      var slot := Slot(moment, counter.seconds);
      if slot != swept {
        var left := Unblocked(blocked, swept, slot, moment);
        AllStillWait(blocked, left, counter.all, counter.all, counter.limit, counter.seconds, moment, moment);
        swept, blocked := slot, left;
        counter.ForgetBefore(slot - 1);
      }
    }

    /** Asks the counter, and blocks the key for the rest of the slot when it refuses. */
    method Ask(key: string, moment: real) returns (allowed: bool)
      requires Valid() && moment == counter.now
      modifies this, counter
      ensures Valid() && counter.now == moment && swept == old(swept)
      ensures allowed <==> LetsIn(old(counter.all), key, counter.limit, counter.seconds, moment)
      ensures counter.all == if allowed then old(counter.all)[key := GetAll(old(counter.all), key) + [moment]]
                             else old(counter.all)
      ensures blocked == if allowed then old(blocked)
                         else Blocked(old(blocked), key, EndOf(Slot(moment, counter.seconds), counter.seconds))
    {
      ghost var before := counter.all;
      assert KeyCounted(counter.rows, GetAll(before, key), key, counter.limit, counter.seconds, moment);
      allowed := counter.HitOnce(key, moment);
      if allowed {
        AllStillWait(blocked, blocked, before, counter.all, counter.limit, counter.seconds, moment, moment);
      } else {
        OneMoreWaits(blocked, counter.all, counter.limit, counter.seconds, moment, key);
        blocked := Blocked(blocked, key, EndOf(Slot(moment, counter.seconds), counter.seconds));
      }
    }

    /** Lets a hit in exactly when the key is not blocked and the counter lets it in. */
    method Allow(key: string, moment: real) returns (allowed: bool)
      requires Valid() && counter.now <= moment && 0.0 <= moment
      modifies this, counter
      ensures Valid() && counter.now == moment
      ensures allowed <==> Allows(old(blocked), old(counter.all), key, counter.limit, counter.seconds, moment)
      ensures counter.all == if allowed then old(counter.all)[key := GetAll(old(counter.all), key) + [moment]]
                             else old(counter.all)
      ensures blocked ==
        if IsBlocked(old(blocked), key, moment) then old(blocked)
        else
          var left := Unblocked(old(blocked), old(swept), Slot(moment, counter.seconds), moment);
          if allowed then left else Blocked(left, key, EndOf(Slot(moment, counter.seconds), counter.seconds))
    {
      ghost var since := counter.now;
      counter.Advance(moment);
      AllStillWait(blocked, blocked, counter.all, counter.all, counter.limit, counter.seconds, since, moment);
      if key in blocked && blocked[key] > moment {
        return false;
      }
      Unblock(moment);
      allowed := Ask(key, moment);
    }
  }

  /** The window's answer differs from the counter's if and only if the key is blocked for this very slot and the
      estimate has fallen below the limit since; and whatever the window refuses, the counter refuses now, or has
      refused in this slot. */
  lemma DiffersExactly(blocked: map<string, real>, all: map<string, seq<real>>, key: string, limit: nat, seconds: real,
                       now: real, moment: real)
    requires AllWait(blocked, all, limit, seconds, now) && now <= moment && AllBy(GetAll(all, key), now)
    ensures Allows(blocked, all, key, limit, seconds, moment) != LetsIn(all, key, limit, seconds, moment) <==>
            key in blocked && blocked[key] == EndOf(Slot(moment, seconds), seconds)
            && LetsIn(all, key, limit, seconds, moment)
    ensures !Allows(blocked, all, key, limit, seconds, moment) ==>
            WasRefused(GetAll(all, key), limit, seconds, Slot(moment, seconds), moment)
  {
    AllStillWait(blocked, blocked, all, all, limit, seconds, now, moment);
    if key in blocked {
      WaitsForThisSlot(GetAll(all, key), blocked[key], limit, seconds, moment);
    }
    if !LetsIn(all, key, limit, seconds, moment) {
      RefusedNow(GetAll(all, key), limit, seconds, moment);
    }
  }

  lemma Minutes()
    ensures HitAt(0.0, 60.0).slot == 0 && HitAt(60.0, 60.0) == Hit(1, 1.0) && HitAt(90.0, 60.0) == Hit(1, 0.5)
  {
    assert 0.0 / 60.0 == 0.0 && 60.0 / 60.0 == 1.0 && 90.0 / 60.0 == 1.5;
  }

  lemma OneHit(first: Hit, next: Hit)
    requires first.slot == next.slot - 1
    ensures Estimate([], first) == 0.0 && Estimate([first], next) == next.weight
  {
    assert [first][..0] == [];
    assert Count([first], first.slot) == 1 && Count([first], next.slot) == 0;
  }

  /** The estimate counts the slot of the moment whole, and of the slot before it the share that the window still covers:
      the window reaches back from the moment by its length, and the slot before ends where the present one begins. */
  lemma EstimateIsTheShare(all: seq<real>, seconds: real, moment: real) returns (share: real)
    requires seconds > 0.0
    ensures var slot, hits := Slot(moment, seconds), HitsAt(all, seconds);
      && EndOf(slot - 1, seconds) <= moment < EndOf(slot, seconds)
      && 0.0 < share <= 1.0 && share * seconds == EndOf(slot - 1, seconds) - (moment - seconds)
      && Estimate(hits, HitAt(moment, seconds)) == Count(hits, slot) as real + Count(hits, slot - 1) as real * share
  {
    var slot := Slot(moment, seconds);
    share := Weight(moment, seconds);
    SlotHolds(moment, seconds);
    BeforeTheEnd(moment, seconds, slot);
    BeforeTheEnd(moment, seconds, slot - 1);
    ShareIs(moment, seconds, slot as real);
    assert EndOf(slot - 1, seconds) == slot as real * seconds;
  }

  lemma ShareIs(moment: real, seconds: real, k: real)
    requires seconds > 0.0
    ensures Left(moment, seconds, k) * seconds == k * seconds - (moment - seconds)
  {
    var part := (moment - k * seconds) / seconds;
    Cancels(moment - k * seconds, seconds);
    assert (1.0 - part) * seconds == seconds - part * seconds;
  }

  /** The block is stricter than the counter: an address admitted once, refused at the start of the next slot, and
      refused again halfway through it, when the counter alone would let it in. */
  method BlockIsStricter() returns (window: SharedWindow, first: bool, second: bool, third: bool)
    ensures window.counter.limit == 1 && window.counter.seconds == 60.0
    ensures first && !second && !third
    ensures LetsIn(window.counter.all, "a", 1, 60.0, 90.0)
  {
    Minutes();
    OneHit(HitAt(0.0, 60.0), HitAt(60.0, 60.0));
    OneHit(HitAt(0.0, 60.0), HitAt(90.0, 60.0));
    var counter := new RateCounter(1, 60.0, 0.0);
    window := new SharedWindow(counter);
    assert HitsAt([], 60.0) == [] && HitsAt([0.0], 60.0) == [HitAt(0.0, 60.0)];
    first := window.Allow("a", 0.0);
    assert GetAll(counter.all, "a") == [0.0];
    second := window.Allow("a", 60.0);
    assert window.blocked["a"] == 120.0;
    third := window.Allow("a", 90.0);
  }
}
