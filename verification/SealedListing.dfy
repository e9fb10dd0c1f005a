/** The cached listing of a sealed vault: filled by scans that take their time, guarded by a generation counter, and
    patched by this process's own writes (mindin/backends/sealed.py:96-145, 161-204). */
module SealedListing {
  import opened Texts

  type Key = string

  /** A stored object: its version and the size of its sealed bytes. */
  datatype Object = Object(version: string, sealedSize: nat)

  /** What the listing says of one path. */
  datatype Listed = Listed(version: string, size: nat)

  datatype Entry = Entry(key: Key, listed: Listed)

  const OVERHEAD: nat := 32
  const LISTING_TTL: real := 5.0

  // ---- sorted lists of entries ----

  predicate Less(a: Key, b: Key) {
    b != "" && (a == "" || a[0] < b[0] || (a[0] == b[0] && Less(a[1..], b[1..])))
  }

  lemma {:induction false} LessIsStrict(a: Key, b: Key)
    ensures !(Less(a, b) && Less(b, a)) && !Less(a, a)
    ensures a == b || Less(a, b) || Less(b, a)
  {
    if a != "" {
      LessIsStrict(a[1..], if b == "" then "" else b[1..]);
      if b != "" && a[0] == b[0] && a[1..] == b[1..] {
        assert a == [a[0]] + a[1..] && b == [b[0]] + b[1..];
      }
    }
  }

  lemma {:induction false} LessIsTransitive(a: Key, b: Key, c: Key)
    requires Less(a, b) && Less(b, c)
    ensures Less(a, c)
  {
    if a != "" && a[0] == b[0] && b[0] == c[0] {
      LessIsTransitive(a[1..], b[1..], c[1..]);
    }
  }

  /** The order of two strings is that of the first characters in which they differ, or of their lengths. */
  lemma {:induction false} LessIsByFirstDifference(a: Key, b: Key, n: nat)
    requires n <= |a| && n <= |b| && a[..n] == b[..n]
    requires n < |a| && n < |b| ==> a[n] != b[n]
    ensures Less(a, b) <==> if n < |a| && n < |b| then a[n] < b[n] else |a| < |b|
  {
    if n > 0 {
      assert a[0] == a[..n][0] == b[..n][0] == b[0];
      assert a[1..][..n - 1] == a[..n][1..] && b[1..][..n - 1] == b[..n][1..];
      LessIsByFirstDifference(a[1..], b[1..], n - 1);
    }
  }

  predicate Sorted(entries: seq<Entry>) {
    forall i, j :: 0 <= i < j < |entries| ==> Less(entries[i].key, entries[j].key)
  }

  function Lookup(entries: seq<Entry>, key: Key): Option<Listed> {
    if entries == [] then None
    else if entries[|entries| - 1].key == key then Some(entries[|entries| - 1].listed)
    else Lookup(entries[..|entries| - 1], key)
  }

  function Without(entries: seq<Entry>, key: Key): seq<Entry> {
    if entries == [] then []
    else
      var kept := Without(entries[..|entries| - 1], key);
      if entries[|entries| - 1].key == key then kept else kept + [entries[|entries| - 1]]
  }

  lemma {:induction false} LookupFinds(entries: seq<Entry>, key: Key)
    ensures Lookup(entries, key).Some? <==> exists i :: 0 <= i < |entries| && entries[i].key == key
    ensures Lookup(entries, key).Some? ==> Entry(key, Lookup(entries, key).value) in entries
  {
    if entries != [] && entries[|entries| - 1].key != key {
      LookupFinds(entries[..|entries| - 1], key);
    }
  }

  lemma {:induction false} WithoutIsSorted(entries: seq<Entry>, key: Key)
    requires Sorted(entries)
    ensures Sorted(Without(entries, key))
    ensures forall e :: e in Without(entries, key) ==> e in entries && e.key != key
    ensures forall k :: Lookup(Without(entries, key), k) == if k == key then None else Lookup(entries, k)
  {
    if entries != [] {
      var n := |entries| - 1;
      WithoutIsSorted(entries[..n], key);
      var kept := Without(entries[..n], key);
      if entries[n].key != key {
        assert (kept + [entries[n]])[..|kept|] == kept;
      } else {
        forall k ensures k == key ==> Lookup(entries[..n], k).None? {
          LookupFinds(entries[..n], k);
          if k == key && Lookup(entries[..n], k).Some? {
            var i :| 0 <= i < n && entries[..n][i].key == key;
            LessIsStrict(entries[i].key, entries[n].key);
          }
        }
      }
    }
  }

  /** Where `bisect` puts a new key: after every smaller one. */
  predicate FitsAt(entries: seq<Entry>, key: Key, position: nat) {
    && position <= |entries|
    && (forall i :: 0 <= i < position ==> Less(entries[i].key, key))
    && (forall i :: position <= i < |entries| ==> Less(key, entries[i].key))
  }

  function InsertAt(entries: seq<Entry>, entry: Entry, position: nat): seq<Entry>
    requires position <= |entries|
  {
    entries[..position] + [entry] + entries[position..]
  }

  lemma {:induction false} InsertStaysSorted(entries: seq<Entry>, entry: Entry, position: nat)
    requires Sorted(entries) && FitsAt(entries, entry.key, position)
    ensures Sorted(InsertAt(entries, entry, position))
  {
    var all := InsertAt(entries, entry, position);
    var n := |entries|;
    if position < n {
      InsertStaysSorted(entries[..n - 1], entry, position);
      assert all[..n] == InsertAt(entries[..n - 1], entry, position);
      SortedOnTop(all[..n], entries[n - 1], entries, entry, position);
      assert all == all[..n] + [entries[n - 1]];
    }
  }

  lemma {:induction false} InsertIsFound(entries: seq<Entry>, entry: Entry, position: nat, key: Key)
    requires FitsAt(entries, entry.key, position)
    ensures Lookup(InsertAt(entries, entry, position), key) ==
            if key == entry.key then Some(entry.listed) else Lookup(entries, key)
  {
    var all := InsertAt(entries, entry, position);
    var n := |entries|;
    if position == n {
      assert all[..n] == entries && all[n] == entry;
    } else {
      InsertIsFound(entries[..n - 1], entry, position, key);
      assert all[..n] == InsertAt(entries[..n - 1], entry, position) && all[n] == entries[n - 1];
      LessIsStrict(entry.key, entries[n - 1].key);
    }
  }

  lemma InsertIsSorted(entries: seq<Entry>, entry: Entry, position: nat)
    requires Sorted(entries) && FitsAt(entries, entry.key, position)
    ensures Sorted(InsertAt(entries, entry, position))
    ensures forall k :: Lookup(InsertAt(entries, entry, position), k) ==
                        if k == entry.key then Some(entry.listed) else Lookup(entries, k)
  {
    InsertStaysSorted(entries, entry, position);
    forall k {
      InsertIsFound(entries, entry, position, k);
    }
  }

  lemma SortedOnTop(below: seq<Entry>, top: Entry, entries: seq<Entry>, entry: Entry, position: nat)
    requires Sorted(below) && Sorted(entries) && entries != [] && top == entries[|entries| - 1]
    requires position < |entries| && FitsAt(entries, entry.key, position)
    requires below == InsertAt(entries[..|entries| - 1], entry, position)
    ensures Sorted(below + [top])
  {
    forall i | 0 <= i < |below| ensures Less(below[i].key, top.key) {
      if i > position { assert below[i] == entries[i - 1]; }
    }
  }

  /** `after` is `before` with the entry of `key` set or removed. */
  ghost predicate Patches(before: seq<Entry>, key: Key, result: Option<Listed>, after: seq<Entry>) {
    Sorted(after) && forall k :: Lookup(after, k) == if k == key then result else Lookup(before, k)
  }

  // ---- the object and its sections under the lock ----

  datatype Listing = Listing(moment: real, entries: seq<Entry>)

  class SealedBackend {
    var listing: Option<Listing>
    var generation: nat

    constructor ()
      ensures listing.None? && generation == 0
    {
      listing, generation := None, 0;
    }

    /** The fresh cached listing, or the generation a scan starts from. */
    method Cached(now: real) returns (hit: Option<seq<Entry>>, started: nat)
      ensures started == generation
      ensures hit == if listing.Some? && now - listing.value.moment < LISTING_TTL then Some(listing.value.entries)
                     else None
    {
      started := generation;
      hit := None;
      if listing.Some? && now - listing.value.moment < LISTING_TTL {
        hit := Some(listing.value.entries);
      }
    }

    method Store(started: nat, moment: real, entries: seq<Entry>)
      modifies this`listing
      ensures listing == if started == generation then Some(Listing(moment, entries)) else old(listing)
    {
      if started == generation {
        listing := Some(Listing(moment, entries));
      }
    }

    method Changed()
      modifies this
      ensures generation == old(generation) + 1 && listing.None?
    {
      generation, listing := generation + 1, None;
    }

    method Wrote(key: Key, entry: Option<Listed>)
      requires listing.Some? ==> Sorted(listing.value.entries)
      modifies this
      ensures generation == old(generation) + 1
      ensures old(listing).None? ==> listing.None?
      ensures old(listing).Some? ==>
                && listing.Some? && listing.value.moment == old(listing).value.moment
                && Patches(old(listing).value.entries, key, entry, listing.value.entries)
    {
      generation := generation + 1;
      if listing.None? { return; }
      var entries := listing.value.entries;
      var kept := [];
      var i := 0;
      while i < |entries|
        invariant 0 <= i <= |entries| && kept == Without(entries[..i], key)
      {
        assert entries[..i + 1][..i] == entries[..i];
        if entries[i].key != key {
          kept := kept + [entries[i]];
        }
        i := i + 1;
      }
      assert entries[..i] == entries;
      WithoutIsSorted(entries, key);
      if entry.Some? {
        var position := Bisect(kept, key);
        InsertIsSorted(kept, Entry(key, entry.value), position);
        kept := InsertAt(kept, Entry(key, entry.value), position);
      }
      listing := Some(Listing(listing.value.moment, kept));
    }

    static method Bisect(entries: seq<Entry>, key: Key) returns (position: nat)
      requires Sorted(entries) && forall e :: e in entries ==> e.key != key
      ensures FitsAt(entries, key, position)
    {
      var low, high := 0, |entries|;
      while low < high
        invariant 0 <= low <= high <= |entries|
        invariant forall i :: 0 <= i < low ==> Less(entries[i].key, key)
        invariant forall i :: high <= i < |entries| ==> Less(key, entries[i].key)
      {
        var middle := (low + high) / 2;
        LessIsStrict(key, entries[middle].key);
        if Less(key, entries[middle].key) {
          forall i | middle < i < |entries| ensures Less(key, entries[i].key) {
            LessIsTransitive(key, entries[middle].key, entries[i].key);
          }
          high := middle;
        } else {
          forall i | 0 <= i < middle ensures Less(entries[i].key, key) {
            LessIsTransitive(entries[i].key, entries[middle].key, key);
          }
          low := middle + 1;
        }
      }
      position := low;
    }

    /** Reads a raw listing: folders and names that do not decrypt are left out, sizes are those of the plain bytes. */
    static method ReadListing(raw: seq<(string, Object)>, pathOf: string -> Option<Key>) returns (entries: seq<Entry>)
      requires forall i, j :: 0 <= i < j < |raw| && Names(raw[i], pathOf) && Names(raw[j], pathOf) ==>
                 pathOf(raw[i].0) != pathOf(raw[j].0)
      ensures Sorted(entries)
      ensures forall k :: Lookup(entries, k) == Decoded(raw, pathOf, k)
    {
      entries := [];
      var i := 0;
      while i < |raw|
        invariant 0 <= i <= |raw| && Sorted(entries)
        invariant forall k :: Lookup(entries, k) == Decoded(raw[..i], pathOf, k)
      {
        assert raw[..i + 1][..i] == raw[..i];
        if Names(raw[i], pathOf) {
          var path := pathOf(raw[i].0).value;
          DecodedElsewhere(raw, pathOf, i);
          LookupFinds(entries, path);
          var position := Bisect(entries, path);
          InsertIsSorted(entries, Entry(path, Plain(raw[i].1)), position);
          entries := InsertAt(entries, Entry(path, Plain(raw[i].1)), position);
        }
        i := i + 1;
      }
      assert raw[..i] == raw;
    }
  }

  function Plain(stored: Object): Listed {
    Listed(stored.version, if stored.sealedSize < OVERHEAD then 0 else stored.sealedSize - OVERHEAD)
  }

  predicate Names(raw: (string, Object), pathOf: string -> Option<Key>) {
    !EndsWith(raw.0, "/") && pathOf(raw.0).Some?
  }

  /** What the raw listing says of the path `key`. */
  function Decoded(raw: seq<(string, Object)>, pathOf: string -> Option<Key>, key: Key): Option<Listed> {
    if raw == [] then None
    else
      var last := raw[|raw| - 1];
      if Names(last, pathOf) && pathOf(last.0).value == key then Some(Plain(last.1))
      else Decoded(raw[..|raw| - 1], pathOf, key)
  }

  /** A path is listed exactly when an object's name decrypts to it, with that object's version and the size of its plain
      bytes, when names are not used twice. */
  lemma {:induction false} DecodedExactly(raw: seq<(string, Object)>, pathOf: string -> Option<Key>, key: Key)
    requires forall i, j :: 0 <= i < j < |raw| && Names(raw[i], pathOf) && Names(raw[j], pathOf) ==>
               pathOf(raw[i].0) != pathOf(raw[j].0)
    ensures Decoded(raw, pathOf, key).Some? <==> exists i :: 0 <= i < |raw| && IsOf(raw[i], pathOf, key)
    ensures forall i :: 0 <= i < |raw| && IsOf(raw[i], pathOf, key) ==>
              Decoded(raw, pathOf, key) == Some(Listed(raw[i].1.version, PlainSize(raw[i].1.sealedSize)))
  {
    if raw != [] {
      var n := |raw| - 1;
      DecodedExactly(raw[..n], pathOf, key);
      forall i | 0 <= i < n && IsOf(raw[i], pathOf, key)
        ensures Decoded(raw, pathOf, key) == Some(Listed(raw[i].1.version, PlainSize(raw[i].1.sealedSize)))
      {
        assert IsOf(raw[..n][i], pathOf, key) && Names(raw[i], pathOf);
        assert Names(raw[n], pathOf) ==> pathOf(raw[n].0) != pathOf(raw[i].0);
      }
    }
  }

  /** The object is no folder, and its name decrypts to the path. */
  predicate IsOf(raw: (string, Object), pathOf: string -> Option<Key>, key: Key) {
    (raw.0 == "" || raw.0[|raw.0| - 1] != '/') && pathOf(raw.0) == Some(key)
  }

  function PlainSize(sealedSize: nat): nat {
    if sealedSize >= 32 then sealedSize - 32 else 0
  }

  lemma {:induction false} DecodedElsewhere(raw: seq<(string, Object)>, pathOf: string -> Option<Key>, n: nat)
    requires n < |raw| && Names(raw[n], pathOf)
    requires forall i, j :: 0 <= i < j < |raw| && Names(raw[i], pathOf) && Names(raw[j], pathOf) ==>
               pathOf(raw[i].0) != pathOf(raw[j].0)
    ensures Decoded(raw[..n], pathOf, pathOf(raw[n].0).value).None?
  {
    DecodedBefore(raw, pathOf, n, n);
  }

  lemma {:induction false} DecodedBefore(raw: seq<(string, Object)>, pathOf: string -> Option<Key>, n: nat, m: nat)
    requires m <= n < |raw| && Names(raw[n], pathOf)
    requires forall i, j :: 0 <= i < j < |raw| && Names(raw[i], pathOf) && Names(raw[j], pathOf) ==>
               pathOf(raw[i].0) != pathOf(raw[j].0)
    ensures Decoded(raw[..m], pathOf, pathOf(raw[n].0).value).None?
  {
    if m > 0 {
      DecodedBefore(raw, pathOf, n, m - 1);
      assert raw[..m][..m - 1] == raw[..m - 1];
    }
  }
}
