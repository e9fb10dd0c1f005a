/** Embedding a list of texts shortest first, in batches, and putting each vector back at its text's place
    (mindin/embed_worker.py:134-161). */
module EmbedBatches {
  import opened Texts
  import opened Chunks

  type Vector = seq<real>

  /** The model: the vector of a text does not depend on the batch it is sent in. */
  datatype Model = Model(id: string, passage: string -> Vector, query: string -> Option<Vector>, minSimilarity: real)

  function Passages(m: Model, texts: seq<string>): (vectors: seq<Vector>)
    ensures |vectors| == |texts| && forall i :: 0 <= i < |texts| ==> vectors[i] == m.passage(texts[i])
  {
    seq(|texts|, i requires 0 <= i < |texts| => m.passage(texts[i]))
  }

  predicate Precedes(texts: seq<string>, a: nat, b: nat)
    requires a < |texts| && b < |texts|
  {
    |texts[a]| < |texts[b]| || (|texts[a]| == |texts[b]| && a < b)
  }

  /** Positions of texts, the shortest first, equal lengths in their own order. */
  predicate Ordered(texts: seq<string>, order: seq<nat>) {
    && (forall i :: 0 <= i < |order| ==> order[i] < |texts|)
    && (forall i, j :: 0 <= i < j < |order| ==> Precedes(texts, order[i], order[j]))
  }

  function Inserted(texts: seq<string>, order: seq<nat>, position: nat): seq<nat>
    requires position < |texts| && Ordered(texts, order)
  {
    if order == [] then [position]
    else if |texts[order[|order| - 1]]| <= |texts[position]| then order + [position]
    else Inserted(texts, order[..|order| - 1], position) + [order[|order| - 1]]
  }

  lemma {:induction false} InsertedHolds(texts: seq<string>, order: seq<nat>, position: nat, p: nat)
    requires position < |texts| && Ordered(texts, order)
    ensures p in Inserted(texts, order, position) <==> p == position || p in order
    ensures |Inserted(texts, order, position)| == |order| + 1
  {
    if order != [] && |texts[order[|order| - 1]]| > |texts[position]| {
      var n := |order| - 1;
      InsertedHolds(texts, order[..n], position, p);
      assert order == order[..n] + [order[n]];
    }
  }

  lemma OrderedAppend(texts: seq<string>, front: seq<nat>, last: nat)
    requires Ordered(texts, front) && last < |texts|
    requires forall i :: 0 <= i < |front| ==> Precedes(texts, front[i], last)
    ensures Ordered(texts, front + [last])
  {
  }

  lemma {:induction false} InsertedIsOrdered(texts: seq<string>, order: seq<nat>, position: nat)
    requires position < |texts| && Ordered(texts, order) && forall i :: 0 <= i < |order| ==> order[i] < position
    ensures Ordered(texts, Inserted(texts, order, position))
  {
    if order != [] {
      var n := |order| - 1;
      if |texts[order[n]]| > |texts[position]| {
        InsertedIsOrdered(texts, order[..n], position);
        var front := Inserted(texts, order[..n], position);
        forall i | 0 <= i < |front| ensures Precedes(texts, front[i], order[n]) {
          InsertedHolds(texts, order[..n], position, front[i]);
          assert front[i] in front;
        }
        OrderedAppend(texts, front, order[n]);
      } else {
        forall i | 0 <= i < |order| ensures Precedes(texts, order[i], position) {
          assert i < n ==> Precedes(texts, order[i], order[n]);
        }
        OrderedAppend(texts, order, position);
      }
    }
  }

  /** `sorted(range(len(texts)), key=length)`. */
  function Order(texts: seq<string>, count: nat): (order: seq<nat>)
    requires count <= |texts|
    ensures Ordered(texts, order) && |order| == count
    ensures forall i :: 0 <= i < |order| ==> order[i] < count
  {
    if count == 0 then []
    else
      var before := Order(texts, count - 1);
      InsertedIsOrdered(texts, before, count - 1);
      InsertedIsBelow(texts, before, count - 1);
      Inserted(texts, before, count - 1)
  }

  lemma InsertedIsBelow(texts: seq<string>, order: seq<nat>, position: nat)
    requires position < |texts| && Ordered(texts, order) && forall i :: 0 <= i < |order| ==> order[i] < position
    ensures var all := Inserted(texts, order, position);
      |all| == |order| + 1 && forall i :: 0 <= i < |all| ==> all[i] < position + 1
  {
    InsertedHolds(texts, order, position, position);
    var all := Inserted(texts, order, position);
    forall i | 0 <= i < |all| ensures all[i] < position + 1 {
      InsertedHolds(texts, order, position, all[i]);
      assert all[i] in all;
    }
  }

  lemma {:induction false} OrderHasAll(texts: seq<string>, count: nat, p: nat)
    requires p < count <= |texts|
    ensures p in Order(texts, count)
  {
    InsertedHolds(texts, Order(texts, count - 1), count - 1, p);
    if p < count - 1 {
      OrderHasAll(texts, count - 1, p);
    }
  }

  lemma NoPositionTwice(texts: seq<string>, order: seq<nat>, i: nat, j: nat)
    requires Ordered(texts, order) && i < j < |order|
    ensures order[i] != order[j]
  {
  }

  /** Every position once, the shortest texts first, equal lengths in their own order. */
  predicate EachOnce(texts: seq<string>, order: seq<nat>) {
    && |order| == |texts| && Ordered(texts, order)
    && (forall p: nat :: p < |texts| ==> p in order)
    && forall i, j :: 0 <= i < j < |order| ==> order[i] != order[j]
  }

  lemma OrderIsEachOnce(texts: seq<string>)
    ensures EachOnce(texts, Order(texts, |texts|))
  {
    var order := Order(texts, |texts|);
    forall p: nat | p < |texts| ensures p in order {
      OrderHasAll(texts, |texts|, p);
    }
    forall i, j | 0 <= i < j < |order| ensures order[i] != order[j] {
      NoPositionTwice(texts, order, i, j);
    }
  }

  predicate Batched(batches: seq<seq<nat>>, order: seq<nat>, size: nat) {
    && Flatten(batches) == order
    && forall b :: 0 <= b < |batches| ==> 1 <= |batches[b]| <= size
  }

  /** The batches: every position once, the shortest texts first. */
  method ShortestFirst(texts: seq<string>, size: nat) returns (batches: seq<seq<nat>>)
    requires size > 0
    ensures Batched(batches, Order(texts, |texts|), size)
    ensures EachOnce(texts, Flatten(batches))
  {
    OrderIsEachOnce(texts);
    var order := Order(texts, |texts|);
    batches := [];
    var start := 0;
    while start < |order|
      invariant Batched(batches, order[..if start < |order| then start else |order|], size)
    {
      var end := if start + size < |order| then start + size else |order|;
      FlattenAppend(batches, order[start..end]);
      assert order[..start] + order[start..end] == order[..end];
      batches := batches + [order[start..end]];
      start := start + size;
    }
    assert order[..|order|] == order;
  }

  lemma {:induction false} BatchesBelow(batches: seq<seq<nat>>, b: nat, i: nat)
    requires b < |batches| && i < |batches[b]|
    ensures batches[b][i] in Flatten(batches)
  {
    if b > 0 {
      BatchesBelow(batches[1..], b - 1, i);
    }
  }

  lemma {:induction false} FlattenFinds(batches: seq<seq<nat>>, p: nat)
    requires p in Flatten(batches)
    ensures exists b :: 0 <= b < |batches| && p in batches[b]
  {
    if batches != [] && p !in batches[0] {
      FlattenFinds(batches[1..], p);
      var b :| 0 <= b < |batches| - 1 && p in batches[1..][b];
      assert p in batches[b + 1];
    }
  }

  predicate RightSoFar(m: Model, texts: seq<string>, slots: seq<Option<Vector>>)
    requires |slots| == |texts|
  {
    forall p :: 0 <= p < |texts| && slots[p].Some? ==> slots[p].value == m.passage(texts[p])
  }

  /** Puts one batch's vectors at the places of their texts. */
  method Scatter(m: Model, texts: seq<string>, positions: seq<nat>, vectors: seq<Vector>, slots: array<Option<Vector>>)
    requires slots.Length == |texts| && |vectors| == |positions| && RightSoFar(m, texts, slots[..])
    requires forall i :: 0 <= i < |positions| ==> positions[i] < |texts| && vectors[i] == m.passage(texts[positions[i]])
    modifies slots
    ensures RightSoFar(m, texts, slots[..])
    ensures forall p :: 0 <= p < |texts| ==> (slots[p].Some? <==> p in positions || old(slots[p]).Some?)
  {
    for i := 0 to |positions|
      invariant RightSoFar(m, texts, slots[..])
      invariant forall p :: 0 <= p < |texts| ==> (slots[p].Some? <==> p in positions[..i] || old(slots[p]).Some?)
    {
      slots[positions[i]] := Some(vectors[i]);
      assert positions[..i + 1] == positions[..i] + [positions[i]];
    }
    assert positions[..|positions|] == positions;
  }

  function Part(texts: seq<string>, positions: seq<nat>): (part: seq<string>)
    requires forall i :: 0 <= i < |positions| ==> positions[i] < |texts|
    ensures |part| == |positions| && forall i :: 0 <= i < |positions| ==> part[i] == texts[positions[i]]
  {
    seq(|positions|, i requires 0 <= i < |positions| => texts[positions[i]])
  }

  /** Every slot filled with the vector of its text. */
  method Unwrap(m: Model, texts: seq<string>, slots: seq<Option<Vector>>) returns (rows: seq<Vector>)
    requires |slots| == |texts| && RightSoFar(m, texts, slots) && forall p :: 0 <= p < |texts| ==> slots[p].Some?
    ensures rows == Passages(m, texts)
  {
    rows := [];
    for p := 0 to |texts|
      invariant |rows| == p && forall k :: 0 <= k < p ==> rows[k] == m.passage(texts[k])
    {
      rows := rows + [slots[p].value];
    }
  }

  /** The vectors of the texts, each at the place of its text, whatever the batch size. */
  method Embed(m: Model, texts: seq<string>, size: nat) returns (rows: seq<Vector>)
    requires size > 0
    ensures rows == Passages(m, texts)
  {
    var slots := new Option<Vector>[|texts|](_ => None);
    var batches := ShortestFirst(texts, size);
    for b := 0 to |batches|
      invariant RightSoFar(m, texts, slots[..])
      invariant forall c, p :: 0 <= c < b && p in batches[c] && p < |texts| ==> slots[p].Some?
    {
      var positions := batches[b];
      forall i | 0 <= i < |positions| ensures positions[i] < |texts| {
        BatchesBelow(batches, b, i);
      }
      Scatter(m, texts, positions, Passages(m, Part(texts, positions)), slots);
    }
    forall p | 0 <= p < |texts| ensures slots[p].Some? {
      OrderHasAll(texts, |texts|, p);
      FlattenFinds(batches, p);
    }
    rows := Unwrap(m, texts, slots[..]);
  }
}
