/** Searching by meaning: the cached matrix of vectors, and the notes nearest to a query (mindin/vectors.py:246-279). */
module Nearest {
  import opened Texts
  import opened NoteTools
  import opened NoteIndex
  import opened Chunks
  import opened EmbedBatches
  import V = Vectors

  type ChunkRows = seq<Row<V.ChunkRow>>

  // ---- the cache, with commits in between ----

  /** The rows in memory with the generation read before them, and the generation of a load under way. */
  datatype Searcher = Searcher(cached: Option<(nat, ChunkRows)>, seen: Option<nat>)

  datatype State = State(vectors: V.State, searcher: Searcher)

  datatype Event = Commit(event: V.Event) | SeeGeneration | ReadRows(rows: ChunkRows)

  datatype Trace = First(state: State) | More(before: Trace, event: Event, state: State)

  ghost predicate Step(c: V.Setting, s: State, e: Event, t: State) {
    match e
    case Commit(event) => V.Step(c, s.vectors, event, t.vectors) && t.searcher == s.searcher
    case SeeGeneration =>
      && s.searcher.seen.None? && t.vectors == s.vectors
      && var generation := s.vectors.db.generation;
         t.searcher == if s.searcher.cached.Some? && s.searcher.cached.value.0 == generation then s.searcher
                       else s.searcher.(seen := Some(generation))
    case ReadRows(rows) =>
      && s.searcher.seen.Some? && t.vectors == s.vectors && multiset(rows) == multiset(s.vectors.db.chunks)
      && t.searcher == Searcher(Some((s.searcher.seen.value, rows)), None)
  }

  ghost predicate Run(c: V.Setting, t: Trace) {
    match t
    case First(s) => s.searcher == Searcher(None, None)
    case More(before, e, s) => Run(c, before) && Step(c, before.state, e, s)
  }

  ghost predicate Coherent(s: State) {
    var db := s.vectors.db;
    && (s.searcher.seen.Some? ==> s.searcher.seen.value <= db.generation)
    && (s.searcher.cached.Some? ==>
          && s.searcher.cached.value.0 <= db.generation
          && (s.searcher.cached.value.0 == db.generation ==> multiset(s.searcher.cached.value.1) == multiset(db.chunks)))
  }

  /** Whenever the cached generation is the stored one, the matrix is the chunk table, whatever was committed between
      reading the generation and reading the rows. */
  lemma {:induction false} CachedRowsAreTheTable(c: V.Setting, t: Trace)
    requires Run(c, t)
    ensures Coherent(t.state)
  {
    if t.More? {
      CachedRowsAreTheTable(c, t.before);
      if t.event.Commit? {
        V.StepBumps(c, t.before.state.vectors, t.event.event, t.state.vectors);
      }
    }
  }

  /** A load with no commit in between leaves the matrix of the stored generation. */
  lemma LoadIsCurrent(c: V.Setting, s: State, seen: State, rows: ChunkRows, t: State)
    requires s.searcher.seen.None? && Step(c, s, SeeGeneration, seen)
    requires if seen.searcher.seen.Some? then Step(c, seen, ReadRows(rows), t) else t == seen
    ensures t.vectors == s.vectors && t.searcher.seen.None?
    ensures t.searcher.cached.Some? && t.searcher.cached.value.0 == t.vectors.db.generation
    ensures seen.searcher.seen.None? ==> t.searcher.cached == s.searcher.cached
  {
  }

  // ---- the nearest notes ----

  datatype Hit = Hit(key: Key, heading: string, similarity: real)

  function Dot(a: Vector, b: Vector): real {
    if a == [] || b == [] then 0.0 else a[0] * b[0] + Dot(a[1..], b[1..])
  }

  /** The vector with a one at a place and zeros elsewhere. */
  function Unit(n: nat, place: nat): Vector {
    seq(n, i => if i == place then 1.0 else 0.0)
  }

  /** `a` with `factor` times `b` added to it. */
  function Plus(a: Vector, factor: real, b: Vector): Vector
    requires |a| == |b|
  {
    seq(|a|, i requires 0 <= i < |a| => a[i] + factor * b[i])
  }

  lemma {:induction false} DotOfNothing(n: nat, b: Vector, place: nat)
    requires place >= n
    ensures Dot(Unit(n, place), b) == 0.0
  {
    if n > 0 && b != [] {
      assert Unit(n, place)[1..] == Unit(n - 1, place);
      DotOfNothing(n - 1, b[1..], place);
    }
  }

  lemma {:induction false} DotOfUnit(n: nat, place: nat, b: Vector)
    requires place < n == |b|
    ensures Dot(Unit(n, place), b) == b[place]
  {
    if place == 0 {
      assert Unit(n, place)[1..] == Unit(n - 1, n);
      DotOfNothing(n - 1, b[1..], n);
    } else {
      assert Unit(n, place)[1..] == Unit(n - 1, place - 1);
      DotOfUnit(n - 1, place - 1, b[1..]);
    }
  }

  lemma OneMoreTerm(x: real, y: real, z: real, factor: real, p: real, q: real)
    ensures (x + factor * y) * z + (p + factor * q) == x * z + p + factor * (y * z + q)
  {
  }

  lemma PlusAt(a: Vector, factor: real, b: Vector, i: nat)
    requires |a| == |b| && i < |a|
    ensures Plus(a, factor, b)[i] == a[i] + factor * b[i]
  {
  }

  lemma PlusRest(a: Vector, factor: real, b: Vector)
    requires |a| == |b| && a != []
    ensures Plus(a, factor, b)[0] == a[0] + factor * b[0]
    ensures Plus(a, factor, b)[1..] == Plus(a[1..], factor, b[1..])
  {
    var rest := Plus(a[1..], factor, b[1..]);
    forall i | 0 <= i < |rest| ensures Plus(a, factor, b)[1..][i] == rest[i] {
      PlusAt(a, factor, b, i + 1);
      PlusAt(a[1..], factor, b[1..], i);
    }
  }

  lemma {:induction false} DotIsLinear(a: Vector, factor: real, b: Vector, c: Vector)
    requires |a| == |b|
    ensures Dot(Plus(a, factor, b), c) == Dot(a, c) + factor * Dot(b, c)
  {
    if a != [] && c != [] {
      PlusRest(a, factor, b);
      DotIsLinear(a[1..], factor, b[1..], c[1..]);
      OneMoreTerm(a[0], b[0], c[0], factor, Dot(a[1..], c[1..]), Dot(b[1..], c[1..]));
    }
  }

  lemma {:induction false} DotCommutes(a: Vector, b: Vector)
    ensures Dot(a, b) == Dot(b, a)
  {
    if a != [] && b != [] {
      DotCommutes(a[1..], b[1..]);
    }
  }

  /** The similarity is the inner product: linear in each vector, and with a unit vector the coordinate there. */
  lemma DotIsTheInnerProduct(a: Vector, factor: real, b: Vector, c: Vector, place: nat)
    requires |a| == |b| && place < |c|
    ensures Dot(a, c) == Dot(c, a)
    ensures Dot(Plus(a, factor, b), c) == Dot(a, c) + factor * Dot(b, c)
    ensures Dot(Unit(|c|, place), c) == c[place]
  {
    DotCommutes(a, c);
    DotIsLinear(a, factor, b, c);
    DotOfUnit(|c|, place, c);
  }

  function Similarities(rows: ChunkRows, vector: Vector): (sims: seq<real>)
    ensures |sims| == |rows| && forall i :: 0 <= i < |rows| ==> sims[i] == Dot(rows[i].value.vector, vector)
  {
    seq(|rows|, i requires 0 <= i < |rows| => Dot(rows[i].value.vector, vector))
  }

  /** The positions of all similarities, the highest first. */
  predicate Descending(sims: seq<real>, order: seq<nat>) {
    && (forall i :: 0 <= i < |order| ==> order[i] < |sims|)
    && (forall i, j :: 0 <= i < j < |order| ==> sims[order[i]] >= sims[order[j]])
  }

  predicate HasAll(order: seq<nat>, n: nat) {
    forall p: nat :: p < n ==> p in order
  }

  lemma PlacedIsDescending(sims: seq<real>, order: seq<nat>, at: nat, n: nat)
    requires Descending(sims, order) && at <= |order| && n < |sims|
    requires forall i :: at <= i < |order| ==> sims[order[i]] < sims[n]
    requires at > 0 ==> sims[order[at - 1]] >= sims[n]
    ensures Descending(sims, order[..at] + [n] + order[at..])
  {
    forall i | 0 <= i < at ensures sims[order[i]] >= sims[n] {
      assert sims[order[i]] >= sims[order[at - 1]];
    }
  }

  lemma PlacedHasAll(order: seq<nat>, at: nat, n: nat)
    requires HasAll(order, n) && at <= |order|
    ensures HasAll(order[..at] + [n] + order[at..], n + 1)
  {
    forall p: nat | p < n ensures p in order[..at] + [n] + order[at..] {
      assert p in order && order == order[..at] + order[at..];
    }
  }

  method ArgSort(sims: seq<real>) returns (order: seq<nat>)
    ensures Descending(sims, order) && HasAll(order, |sims|)
  {
    order := [];
    for n := 0 to |sims|
      invariant Descending(sims, order) && HasAll(order, n)
    {
      var at := |order|;
      while at > 0 && sims[order[at - 1]] < sims[n]
        invariant 0 <= at <= |order|
        invariant forall i :: at <= i < |order| ==> sims[order[i]] < sims[n]
      {
        at := at - 1;
      }
      PlacedIsDescending(sims, order, at, n);
      PlacedHasAll(order, at, n);
      order := order[..at] + [n] + order[at..];
    }
  }

  /** A row of the key at or above the threshold. */
  predicate Reaches(rows: ChunkRows, sims: seq<real>, threshold: real, key: Key, i: nat)
    requires |sims| == |rows|
  {
    i < |rows| && rows[i].key == key && sims[i] >= threshold
  }

  predicate HasHit(hits: seq<Hit>, key: Key) {
    exists h :: 0 <= h < |hits| && hits[h].key == key
  }

  predicate Ranked(hits: seq<Hit>) {
    forall g, h :: 0 <= g < h < |hits| ==> hits[g].key != hits[h].key && hits[g].similarity >= hits[h].similarity
  }

  /** A hit is the similarity and the heading of a row of its note, and no row of the note is nearer. */
  ghost predicate IsBest(rows: ChunkRows, sims: seq<real>, threshold: real, hit: Hit)
    requires |sims| == |rows|
  {
    && (exists i: nat :: Reaches(rows, sims, threshold, hit.key, i) && sims[i] == hit.similarity
                         && rows[i].value.heading == hit.heading)
    && forall i: nat :: i < |rows| && rows[i].key == hit.key ==> sims[i] <= hit.similarity
  }

  ghost predicate AllBest(rows: ChunkRows, sims: seq<real>, threshold: real, hits: seq<Hit>)
    requires |sims| == |rows|
  {
    forall h :: 0 <= h < |hits| ==> IsBest(rows, sims, threshold, hits[h])
  }

  /** Each note with a row at or above the threshold, once, at its best row, the best note first. */
  ghost predicate AreNearest(rows: ChunkRows, sims: seq<real>, threshold: real, hits: seq<Hit>)
    requires |sims| == |rows|
  {
    && (forall i: nat, key :: Reaches(rows, sims, threshold, key, i) ==> HasHit(hits, key))
    && AllBest(rows, sims, threshold, hits)
    && Ranked(hits)
  }

  /** What the loop has found after some positions. */
  ghost predicate FoundSoFar(rows: ChunkRows, sims: seq<real>, threshold: real, order: seq<nat>, done: nat,
                             hits: seq<Hit>)
    requires |sims| == |rows| && Descending(sims, order) && done <= |order|
  {
    && (forall k :: 0 <= k < done ==> HasHit(hits, rows[order[k]].key))
    && AllBest(rows, sims, threshold, hits)
    && Ranked(hits)
    && forall h, k :: 0 <= h < |hits| && done <= k < |order| ==> hits[h].similarity >= sims[order[k]]
  }

  method Collect(rows: ChunkRows, sims: seq<real>, threshold: real, order: seq<nat>) returns (hits: seq<Hit>)
    requires |sims| == |rows| && Descending(sims, order) && HasAll(order, |rows|)
    ensures AreNearest(rows, sims, threshold, hits)
  {
    hits := [];
    var k := 0;
    while k < |order|
      invariant 0 <= k <= |order| && FoundSoFar(rows, sims, threshold, order, k, hits)
    {
      var position := order[k];
      if sims[position] < threshold {
        break;
      }
      if !HasHit(hits, rows[position].key) {
        Taken(rows, sims, threshold, order, k, hits);
        hits := hits + [Hit(rows[position].key, rows[position].value.heading, sims[position])];
      }
      k := k + 1;
    }
    RestIsBelow(rows, sims, threshold, order, k, hits);
  }

  lemma RestIsBelow(rows: ChunkRows, sims: seq<real>, threshold: real, order: seq<nat>, k: nat, hits: seq<Hit>)
    requires |sims| == |rows| && Descending(sims, order) && HasAll(order, |rows|) && k <= |order|
    requires FoundSoFar(rows, sims, threshold, order, k, hits) && (k < |order| ==> sims[order[k]] < threshold)
    ensures AreNearest(rows, sims, threshold, hits)
  {
    forall i: nat, key | Reaches(rows, sims, threshold, key, i) ensures HasHit(hits, key) {
      assert i in order;
      var j :| 0 <= j < |order| && order[j] == i;
      assert j < k;
    }
  }

  /** The first row of a note in descending order is its best. */
  lemma FirstIsBest(rows: ChunkRows, sims: seq<real>, threshold: real, order: seq<nat>, k: nat, hits: seq<Hit>)
    requires |sims| == |rows| && Descending(sims, order) && HasAll(order, |rows|) && k < |order|
    requires forall j :: 0 <= j < k ==> HasHit(hits, rows[order[j]].key)
    requires !HasHit(hits, rows[order[k]].key) && sims[order[k]] >= threshold
    ensures IsBest(rows, sims, threshold, Hit(rows[order[k]].key, rows[order[k]].value.heading, sims[order[k]]))
  {
    var key := rows[order[k]].key;
    forall i: nat | i < |rows| && rows[i].key == key ensures sims[i] <= sims[order[k]] {
      assert i in order;
      var j :| 0 <= j < |order| && order[j] == i;
      assert j >= k;
    }
    assert Reaches(rows, sims, threshold, key, order[k]);
  }

  lemma Taken(rows: ChunkRows, sims: seq<real>, threshold: real, order: seq<nat>, k: nat, hits: seq<Hit>)
    requires |sims| == |rows| && Descending(sims, order) && HasAll(order, |rows|) && k < |order|
    requires FoundSoFar(rows, sims, threshold, order, k, hits)
    requires !HasHit(hits, rows[order[k]].key) && sims[order[k]] >= threshold
    ensures var hit := Hit(rows[order[k]].key, rows[order[k]].value.heading, sims[order[k]]);
      FoundSoFar(rows, sims, threshold, order, k + 1, hits + [hit])
  {
    var hit := Hit(rows[order[k]].key, rows[order[k]].value.heading, sims[order[k]]);
    var more := hits + [hit];
    FirstIsBest(rows, sims, threshold, order, k, hits);
    forall j | 0 <= j < k + 1 ensures HasHit(more, rows[order[j]].key) {
      if j < k {
        var h :| 0 <= h < |hits| && hits[h].key == rows[order[j]].key;
        assert more[h].key == rows[order[j]].key;
      } else {
        assert more[|hits|].key == rows[order[j]].key;
      }
    }
    forall h | 0 <= h < |more| ensures IsBest(rows, sims, threshold, more[h]) {
      assert h < |hits| ==> more[h] == hits[h];
    }
  }

  /** `nearest`: nothing without rows, without a query vector, or with one of another length. */
  method Search(m: Model, rows: ChunkRows, query: string) returns (hits: seq<Hit>)
    ensures var vector := m.query(query);
      if rows == [] || vector.None? || |vector.value| != |rows[0].value.vector| then hits == []
      else AreNearest(rows, Similarities(rows, vector.value), m.minSimilarity, hits)
  {
    if rows == [] {
      return [];
    }
    var vector := m.query(query);
    if vector.None? || |vector.value| != |rows[0].value.vector| {
      return [];
    }
    var sims := Similarities(rows, vector.value);
    var order := ArgSort(sims);
    hits := Collect(rows, sims, m.minSimilarity, order);
  }

  // ---- cache, tables and ranking together ----

  /** A passage of a version that is near enough. */
  ghost predicate HasNearPassage(c: V.Setting, vector: Vector, key: Key, note: V.NoteText) {
    exists k: nat :: k < |ChunksOf(c.patterns, note.title, note.summary, note.lines)|
      && Dot(c.model.passage(ChunksOf(c.patterns, note.title, note.summary, note.lines)[k].text), vector) >=
         c.model.minSimilarity
  }

  lemma {:induction false} ValuesAreRows<T>(rows: seq<Row<T>>, key: Key, value: T)
    ensures value in ValuesOf(rows, key) <==> Row(key, value) in rows
  {
    if rows != [] {
      ValuesAreRows(rows[1..], key, value);
      assert Row(key, value) in rows <==> Row(key, value) == rows[0] || Row(key, value) in rows[1..];
    }
  }

  lemma SameRows(a: ChunkRows, b: ChunkRows, row: Row<V.ChunkRow>)
    requires multiset(a) == multiset(b)
    ensures row in a <==> row in b
  {
    assert row in multiset(a) <==> row in multiset(b);
  }

  /** A search on a current matrix finds exactly the notes with a passage near enough in the version they are
      embedded at. */
  lemma SearchIsExact(c: V.Setting, t: V.Trace, rows: ChunkRows, vector: Vector, hits: seq<Hit>, key: Key)
    requires V.Run(c, t) && t.state.db.model == Some(c.model.id)
    requires multiset(rows) == multiset(t.state.db.chunks)
    requires AreNearest(rows, Similarities(rows, vector), c.model.minSimilarity, hits)
    ensures HasHit(hits, key) <==>
            key in t.state.db.embedded
            && HasNearPassage(c, vector, key, c.content(key, t.state.db.embedded[key]))
  {
    V.EmbeddedMeansItsVersion(c, t, key);
    var db := t.state.db;
    if HasHit(hits, key) {
      var h :| 0 <= h < |hits| && hits[h].key == key;
      var i: nat :| Reaches(rows, Similarities(rows, vector), c.model.minSimilarity, key, i);
      SameRows(rows, db.chunks, rows[i]);
      ValuesAreRows(db.chunks, key, rows[i].value);
      var own := V.ChunkRows(c, c.content(key, db.embedded[key]));
      var k :| 0 <= k < |own| && own[k] == rows[i].value;
      assert HasNearPassage(c, vector, key, c.content(key, db.embedded[key]));
    }
    if key in db.embedded && HasNearPassage(c, vector, key, c.content(key, db.embedded[key])) {
      var note := c.content(key, db.embedded[key]);
      var chunks := ChunksOf(c.patterns, note.title, note.summary, note.lines);
      var k: nat :| k < |chunks| && Dot(c.model.passage(chunks[k].text), vector) >= c.model.minSimilarity;
      var row := V.ChunkRow(k, chunks[k].heading, c.model.passage(chunks[k].text));
      assert V.ChunkRows(c, note)[k] == row;
      ValuesAreRows(db.chunks, key, row);
      SameRows(rows, db.chunks, Row(key, row));
      var i :| 0 <= i < |rows| && rows[i] == Row(key, row);
      assert Reaches(rows, Similarities(rows, vector), c.model.minSimilarity, key, i);
    }
  }
}
