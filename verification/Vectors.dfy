/** The vector tables of an index: embedding what is pending, while other threads and processes go on indexing notes
    (mindin/vectors.py:102-117, 150-164, 187-244). */
module Vectors {
  import opened Texts
  import opened NoteTools
  import opened NoteIndex
  import opened Chunks
  import opened EmbedBatches

  /** What the index holds of a note that embedding reads. */
  datatype NoteText = NoteText(version: string, title: string, summary: string, lines: seq<string>)

  datatype ChunkRow = ChunkRow(ord: nat, heading: string, vector: Vector)

  /** The notes, the version each key is embedded at, the chunk rows, and the two meta values. */
  datatype Db = Db(notes: map<Key, NoteText>, embedded: map<Key, string>, chunks: seq<Row<ChunkRow>>,
                   model: Option<string>, generation: nat)

  /** The line patterns, the model, and what each version of each note holds. */
  datatype Setting = Setting(patterns: Patterns, model: Model, content: (Key, string) -> NoteText)

  const NOTES_PER_BATCH := 16

  function RowsOfChunks(m: Model, chunks: seq<Chunk>): seq<ChunkRow> {
    seq(|chunks|, i requires 0 <= i < |chunks| => ChunkRow(i, chunks[i].heading, m.passage(chunks[i].text)))
  }

  /** The chunk rows a note should have: one for each of its passages, in order. */
  function ChunkRows(c: Setting, note: NoteText): seq<ChunkRow> {
    RowsOfChunks(c.model, ChunksOf(c.patterns, note.title, note.summary, note.lines))
  }

  // ---- the transactions ----

  function WithoutVectors(db: Db, key: Key): Db {
    db.(chunks := RowsLeft(db.chunks, key), embedded := db.embedded - {key}, generation := db.generation + 1)
  }

  function Forgotten(db: Db): Db {
    db.(chunks := [], embedded := map[], generation := db.generation + 1)
  }

  predicate IsStale(db: Db, key: Key) {
    key in db.embedded && !(key in db.notes && db.notes[key].version == db.embedded[key])
  }

  predicate IsPending(db: Db, key: Key) {
    key in db.notes && !(key in db.embedded && db.embedded[key] == db.notes[key].version)
  }

  /** Stores a note's rows, unless the note has changed since it was read. */
  function Stored(db: Db, key: Key, version: string, rows: seq<ChunkRow>): Db {
    if key in db.notes && db.notes[key].version == version then
      var left := WithoutVectors(db, key);
      left.(chunks := left.chunks + RowsFor(key, rows), embedded := left.embedded[key := version])
    else db
  }

  function StoredAll(c: Setting, db: Db, batch: seq<(Key, NoteText)>): Db {
    if batch == [] then db
    else
      var n := |batch| - 1;
      Stored(StoredAll(c, db, batch[..n]), batch[n].0, batch[n].1.version, ChunkRows(c, batch[n].1))
  }

  // ---- what the rows mean ----

  /** The rows of a key are the chunks of the version it is embedded at, and there are none without one. */
  predicate MeansAt(c: Setting, db: Db, key: Key) {
    ValuesOf(db.chunks, key) ==
    if key in db.embedded then ChunkRows(c, c.content(key, db.embedded[key])) else []
  }

  ghost predicate Means(c: Setting, db: Db) {
    forall key :: MeansAt(c, db, key)
  }

  /** Versions determine what a note holds. */
  predicate Known(c: Setting, notes: map<Key, NoteText>) {
    forall key :: key in notes ==> notes[key] == c.content(key, notes[key].version)
  }

  lemma WithoutVectorsMeans(c: Setting, db: Db, key: Key, other: Key)
    requires other == key || MeansAt(c, db, other)
    ensures MeansAt(c, WithoutVectors(db, key), other)
  {
    ValuesAfterDelete(db.chunks, key, other);
  }

  lemma StoredMeans(c: Setting, db: Db, key: Key, note: NoteText, other: Key)
    requires MeansAt(c, db, other) && note == c.content(key, note.version)
    ensures MeansAt(c, Stored(db, key, note.version, ChunkRows(c, note)), other)
  {
    ValuesAfterDelete(db.chunks, key, other);
    ValuesAfterInsert(RowsLeft(db.chunks, key), key, ChunkRows(c, note), other);
  }

  lemma {:induction false} StoredAllMeans(c: Setting, db: Db, batch: seq<(Key, NoteText)>)
    requires Means(c, db) && forall i :: 0 <= i < |batch| ==> batch[i].1 == c.content(batch[i].0, batch[i].1.version)
    ensures Means(c, StoredAll(c, db, batch))
    ensures StoredAll(c, db, batch).notes == db.notes && StoredAll(c, db, batch).model == db.model
  {
    if batch != [] {
      var n := |batch| - 1;
      StoredAllMeans(c, db, batch[..n]);
      forall key ensures MeansAt(c, StoredAll(c, db, batch), key) {
        StoredMeans(c, StoredAll(c, db, batch[..n]), batch[n].0, batch[n].1, key);
      }
    }
  }

  // ---- many workers and many writers ----

  datatype Worker = Idle | Ready | Planned(batch: seq<(Key, NoteText)>)

  datatype State = State(db: Db, workers: map<nat, Worker>)

  /** `vectors` tells whether the writing process keeps the vector tables, or runs without an embedder. */
  datatype Event =
    | Upsert(key: Key, note: NoteText, vectors: bool)
    | Remove(key: Key, vectors: bool)
    | Rebuild
    | DropStale(id: nat)
    | ReadBatch(id: nat, batch: seq<(Key, NoteText)>)
    | Store(id: nat)
    | Stop(id: nat)

  datatype Trace = First(state: State) | More(before: Trace, event: Event, state: State)

  function Fresh(c: Setting, db: Db): Db {
    if db.model == Some(c.model.id) then db else Forgotten(db).(model := Some(c.model.id))
  }

  /** A database without its stale rows: `_drop_stale` deletes them one by one. */
  ghost predicate Dropped(c: Setting, db: Db, after: Db) {
    && after.notes == db.notes && after.model == Some(c.model.id) && after.generation >= db.generation
    && (after.chunks != db.chunks ==> after.generation > db.generation)
    && (forall key :: (key in after.embedded <==> key in Fresh(c, db).embedded && !IsStale(db, key)))
    && (forall key :: key in after.embedded ==> after.embedded[key] == Fresh(c, db).embedded[key])
    && (forall key :: ValuesOf(after.chunks, key) ==
                      if IsStale(Fresh(c, db), key) then [] else ValuesOf(Fresh(c, db).chunks, key))
  }

  ghost predicate Step(c: Setting, s: State, e: Event, t: State) {
    match e
    case Upsert(key, note, vectors) =>
      && note == c.content(key, note.version)
      && var left := if vectors then WithoutVectors(s.db, key) else s.db;
         t == s.(db := left.(notes := left.notes[key := note]))
    case Remove(key, vectors) =>
      var left := if vectors then WithoutVectors(s.db, key) else s.db;
      t == s.(db := left.(notes := left.notes - {key}))
    case Rebuild => t == s.(db := Forgotten(s.db).(notes := map[]))
    case DropStale(id) =>
      && id in s.workers && s.workers[id].Idle? && t.workers == s.workers[id := Ready]
      && Dropped(c, s.db, t.db)
    case ReadBatch(id, batch) =>
      && id in s.workers && s.workers[id].Ready? && t == s.(workers := s.workers[id := Planned(batch)])
      && forall i :: 0 <= i < |batch| ==> batch[i].0 in s.db.notes && batch[i].1 == s.db.notes[batch[i].0]
    case Store(id) =>
      && id in s.workers && s.workers[id].Planned?
      && t == State(StoredAll(c, s.db, s.workers[id].batch), s.workers[id := Ready])
    case Stop(id) => id in s.workers && t == s.(workers := s.workers[id := Idle])
  }

  /** Runs from any database: one that another model filled may hold anything. */
  ghost predicate Run(c: Setting, t: Trace) {
    match t
    case First(s) =>
      && Known(c, s.db.notes) && (s.db.model == Some(c.model.id) ==> Means(c, s.db))
      && forall id :: id in s.workers ==> s.workers[id].Idle?
    case More(before, e, s) => Run(c, before) && Step(c, before.state, e, s)
  }

  predicate WorkersAreSound(c: Setting, s: State) {
    forall id :: id in s.workers && !s.workers[id].Idle? ==>
      s.db.model == Some(c.model.id) && (s.workers[id].Planned? ==> BatchIsKnown(c, s.workers[id].batch))
  }

  predicate BatchIsKnown(c: Setting, batch: seq<(Key, NoteText)>) {
    forall i :: 0 <= i < |batch| ==> batch[i].1 == c.content(batch[i].0, batch[i].1.version)
  }

  ghost predicate Sound(c: Setting, s: State) {
    Known(c, s.db.notes) && (s.db.model == Some(c.model.id) ==> Means(c, s.db)) && WorkersAreSound(c, s)
  }

  lemma WritesAreSound(c: Setting, s: State, e: Event, t: State)
    requires Sound(c, s) && Step(c, s, e, t) && (e.Upsert? || e.Remove? || e.Rebuild?)
    ensures Sound(c, t)
  {
    if s.db.model == Some(c.model.id) {
      forall key ensures MeansAt(c, t.db, key) {
        assert MeansAt(c, s.db, key);
        if !e.Rebuild? {
          WithoutVectorsMeans(c, s.db, e.key, key);
        }
      }
    }
  }

  lemma WorkIsSound(c: Setting, s: State, e: Event, t: State)
    requires Sound(c, s) && Step(c, s, e, t) && (e.DropStale? || e.ReadBatch? || e.Store? || e.Stop?)
    ensures Sound(c, t)
  {
    if e.Store? {
      StoredAllMeans(c, s.db, s.workers[e.id].batch);
    } else if e.DropStale? {
      forall key ensures MeansAt(c, t.db, key) {
        assert s.db.model == Some(c.model.id) ==> MeansAt(c, s.db, key);
      }
    }
  }

  lemma {:induction false} AlwaysSound(c: Setting, t: Trace)
    requires Run(c, t)
    ensures Sound(c, t.state)
  {
    if t.More? {
      AlwaysSound(c, t.before);
      if t.event.Upsert? || t.event.Remove? || t.event.Rebuild? {
        WritesAreSound(c, t.before.state, t.event, t.state);
      } else {
        WorkIsSound(c, t.before.state, t.event, t.state);
      }
    }
  }

  /** Whatever is interleaved, once one worker has begun an embedded row means the passages of the version it names,
      each with its own vector, in order. */
  lemma EmbeddedMeansItsVersion(c: Setting, t: Trace, key: Key)
    requires Run(c, t) && t.state.db.model == Some(c.model.id)
    ensures ValuesOf(t.state.db.chunks, key) ==
            if key in t.state.db.embedded then ChunkRows(c, c.content(key, t.state.db.embedded[key])) else []
  {
    AlwaysSound(c, t);
    assert MeansAt(c, t.state.db, key);
  }

  // ---- what a step leaves ----

  /** A write leaves its note in the index and pending, a removal leaves neither the note nor, with the vector tables, its
      embedding, and a rebuild leaves nothing. */
  lemma WritesLeave(c: Setting, s: State, e: Event, t: State, key: Key)
    requires Step(c, s, e, t)
    ensures e.Upsert? && e.key == key ==>
              key in t.db.notes && t.db.notes[key] == e.note && (e.vectors ==> IsPending(t.db, key))
    ensures e.Remove? && e.key == key ==> key !in t.db.notes && (e.vectors ==> key !in t.db.embedded)
    ensures (e.Upsert? || e.Remove?) && e.key != key ==>
              (key in t.db.notes <==> key in s.db.notes) && (key in s.db.notes ==> t.db.notes[key] == s.db.notes[key])
    ensures e.Rebuild? ==> key !in t.db.notes && key !in t.db.embedded
  {
  }

  /** A batch that a worker reads and stores, with notes that stay as they are, is embedded. */
  lemma BatchIsEmbedded(c: Setting, s: State, id: nat, batch: seq<(Key, NoteText)>, read: State, t: State)
    requires Step(c, s, ReadBatch(id, batch), read) && Step(c, read, Store(id), t)
    ensures t.db.notes == s.db.notes && t.workers[id].Ready?
    ensures forall i :: 0 <= i < |batch| ==>
              batch[i].0 in t.db.embedded && t.db.embedded[batch[i].0] == s.db.notes[batch[i].0].version
  {
    forall i | 0 <= i < |batch|
      ensures batch[i].0 in t.db.embedded && t.db.embedded[batch[i].0] == s.db.notes[batch[i].0].version
    {
      StoredAllIs(c, s.db, batch, batch[i].0);
      assert InBatch(batch, batch[i].0);
    }
    StoredAllIs(c, s.db, batch, "");
  }

  // ---- nothing stale ----

  lemma {:induction false} StoredAllIsCurrent(c: Setting, db: Db, batch: seq<(Key, NoteText)>, key: Key)
    ensures var after := StoredAll(c, db, batch);
      && after.notes == db.notes
      && (key in after.embedded && !(key in db.embedded && after.embedded[key] == db.embedded[key]) ==>
            key in db.notes && after.embedded[key] == db.notes[key].version)
      && (key in db.embedded ==> key in after.embedded)
  {
    if batch != [] {
      StoredAllIsCurrent(c, db, batch[..|batch| - 1], key);
    }
  }

  /** What a worker stores is never out of date: an embedding that appears or changes is that of the note's version at
      that moment, however long ago the worker read the note. */
  lemma NothingStaleIsStored(c: Setting, s: State, e: Event, t: State, key: Key)
    requires Step(c, s, e, t) && key in t.db.embedded
    requires !(key in s.db.embedded && t.db.embedded[key] == s.db.embedded[key])
    ensures key in t.db.notes && t.db.embedded[key] == t.db.notes[key].version
  {
    if e.Store? {
      StoredAllIsCurrent(c, s.db, s.workers[e.id].batch, key);
    }
  }

  /** After dropping what is stale, exactly the notes embedded by this model at their present version are left. */
  lemma DroppedExactly(c: Setting, db: Db, after: Db, key: Key)
    requires Dropped(c, db, after)
    ensures key in after.embedded <==>
            && db.model == Some(c.model.id) && key in db.embedded && key in db.notes
            && db.embedded[key] == db.notes[key].version
    ensures key in after.embedded ==>
              after.embedded[key] == db.embedded[key] && ValuesOf(after.chunks, key) == ValuesOf(db.chunks, key)
  {
  }

  // ---- the generation counter ----

  lemma {:induction false} StoredAllBumps(c: Setting, db: Db, batch: seq<(Key, NoteText)>)
    ensures StoredAll(c, db, batch).generation >= db.generation
    ensures StoredAll(c, db, batch).chunks != db.chunks ==> StoredAll(c, db, batch).generation > db.generation
  {
    if batch != [] {
      StoredAllBumps(c, db, batch[..|batch| - 1]);
    }
  }

  /** No commit changes the chunk rows without a new generation, and generations never go back. */
  lemma StepBumps(c: Setting, s: State, e: Event, t: State)
    requires Step(c, s, e, t)
    ensures t.db.generation >= s.db.generation
    ensures t.db.chunks != s.db.chunks ==> t.db.generation > s.db.generation
  {
    if e.Store? {
      StoredAllBumps(c, s.db, s.workers[e.id].batch);
    }
  }

  // ---- one worker on a quiet index ----

  function TextsOfChunks(chunks: seq<Chunk>): seq<string> {
    seq(|chunks|, i requires 0 <= i < |chunks| => chunks[i].text)
  }

  lemma {:induction false} FlattenSlice<T>(parts: seq<seq<T>>, k: nat)
    requires k < |parts|
    ensures |Flatten(parts[..k])| + |parts[k]| <= |Flatten(parts)|
    ensures Flatten(parts)[|Flatten(parts[..k])|..|Flatten(parts[..k])| + |parts[k]|] == parts[k]
    ensures |Flatten(parts[..k + 1])| == |Flatten(parts[..k])| + |parts[k]|
  {
    if k > 0 {
      var rest := parts[1..];
      FlattenSlice(rest, k - 1);
      assert parts[..k][1..] == rest[..k - 1] && parts[..k + 1][1..] == rest[..k];
    } else {
      assert parts[..1][1..] == [];
    }
  }

  datatype Plan = Plan(key: Key, version: string, chunks: seq<Chunk>)

  function PlanOf(c: Setting, item: (Key, NoteText)): Plan {
    Plan(item.0, item.1.version, ChunksOf(c.patterns, item.1.title, item.1.summary, item.1.lines))
  }

  function TextsByNote(planned: seq<Plan>): seq<seq<string>> {
    seq(|planned|, i requires 0 <= i < |planned| => TextsOfChunks(planned[i].chunks))
  }

  lemma TextsGrow(planned: seq<Plan>, plan: Plan)
    ensures Flatten(TextsByNote(planned + [plan])) == Flatten(TextsByNote(planned)) + TextsOfChunks(plan.chunks)
  {
    FlattenAppend(TextsByNote(planned), TextsOfChunks(plan.chunks));
    assert TextsByNote(planned + [plan]) == TextsByNote(planned) + [TextsOfChunks(plan.chunks)];
  }

  /** The slice of the matrix at a note's offset holds the vectors of its own passages. */
  lemma SliceIsOwn(m: Model, planned: seq<Plan>, i: nat, rows: seq<ChunkRow>)
    requires i < |planned|
    requires var all, offset, n := Flatten(TextsByNote(planned)), |Flatten(TextsByNote(planned)[..i])|, |planned[i].chunks|;
      && |rows| == n && offset + n <= |all|
      && forall k :: 0 <= k < n ==>
           rows[k] == ChunkRow(k, planned[i].chunks[k].heading, Passages(m, all)[offset..offset + n][k])
    ensures rows == RowsOfChunks(m, planned[i].chunks)
  {
    var all, offset, n := Flatten(TextsByNote(planned)), |Flatten(TextsByNote(planned)[..i])|, |planned[i].chunks|;
    FlattenSlice(TextsByNote(planned), i);
    forall k | 0 <= k < n ensures rows[k].vector == m.passage(planned[i].chunks[k].text) {
      assert all[offset..offset + n][k] == TextsOfChunks(planned[i].chunks)[k];
    }
  }

  /** The rows of some keys deleted, one transaction or many. */
  ghost predicate Shrunk(db: Db, after: Db, stale: set<Key>) {
    && after.notes == db.notes && after.model == db.model && after.generation >= db.generation
    && (after.chunks != db.chunks ==> after.generation > db.generation)
    && after.embedded == db.embedded - stale
    && forall key :: ValuesOf(after.chunks, key) == if key in stale then [] else ValuesOf(db.chunks, key)
  }

  lemma ShrinkOne(db: Db, now: Db, stale: set<Key>, key: Key)
    requires Shrunk(db, now, stale)
    ensures Shrunk(db, WithoutVectors(now, key), stale + {key})
  {
    forall other {
      ValuesAfterDelete(now.chunks, key, other);
    }
  }

  class Store {
    const c: Setting
    const batchSize: nat
    var notes: map<Key, NoteText>
    var embedded: map<Key, string>
    var chunks: seq<Row<ChunkRow>>
    var model: Option<string>
    var generation: nat

    constructor (c: Setting, batchSize: nat)
      ensures this.c == c && this.batchSize == batchSize
      ensures Now() == Db(map[], map[], [], None, 0)
    {
      this.c, this.batchSize := c, batchSize;
      notes, embedded, chunks, model, generation := map[], map[], [], None, 0;
    }

    ghost function Now(): Db
      reads this
    {
      Db(notes, embedded, chunks, model, generation)
    }

    method DeleteVectors(key: Key)
      modifies this
      ensures Now() == WithoutVectors(old(Now()), key)
    {
      chunks := RowsLeft(chunks, key);
      embedded := embedded - {key};
      generation := generation + 1;
    }

    method DeleteAll(stale: set<Key>)
      modifies this
      ensures Shrunk(old(Now()), Now(), stale)
    {
      var left := stale;
      while left != {}
        invariant left <= stale && Shrunk(old(Now()), Now(), stale - left)
      {
        var key :| key in left;
        ShrinkOne(old(Now()), Now(), stale - left, key);
        DeleteVectors(key);
        assert stale - left + {key} == stale - (left - {key});
        left := left - {key};
      }
    }

    /** Forgets the rows of another model, and those of notes that have changed or gone. */
    method DropStale()
      modifies this
      ensures Dropped(c, old(Now()), Now())
    {
      if model != Some(c.model.id) {
        chunks, embedded, generation, model := [], map[], generation + 1, Some(c.model.id);
      }
      ghost var start := Now();
      assert start == Fresh(c, old(Now()));
      var stale := set key | key in embedded && !(key in notes && notes[key].version == embedded[key]);
      assert forall key :: key in stale <==> IsStale(start, key);
      DeleteAll(stale);
    }

    /** Some pending notes, all of them when there are no more than the limit. */
    method Pending(limit: nat) returns (batch: seq<(Key, NoteText)>)
      requires limit > 0
      ensures |batch| <= limit && (batch == [] <==> forall key :: !IsPending(Now(), key))
      ensures forall i :: 0 <= i < |batch| ==> IsPending(Now(), batch[i].0) && batch[i].1 == notes[batch[i].0]
      ensures forall i, j :: 0 <= i < j < |batch| ==> batch[i].0 != batch[j].0
    {
      var left := set key | key in notes && !(key in embedded && embedded[key] == notes[key].version);
      ghost var all := left;
      batch := [];
      while left != {} && |batch| < limit
        invariant left <= all && |batch| <= limit && (batch == [] ==> left == all)
        invariant forall i :: 0 <= i < |batch| ==> batch[i].0 in all - left && batch[i].1 == notes[batch[i].0]
        invariant forall i, j :: 0 <= i < j < |batch| ==> batch[i].0 != batch[j].0
      {
        var key :| key in left;
        batch := batch + [(key, notes[key])];
        left := left - {key};
      }
      assert forall key :: key in all <==> IsPending(Now(), key);
      assert batch != [] ==> IsPending(Now(), batch[0].0);
    }

    method PlanBatch(batch: seq<(Key, NoteText)>) returns (planned: seq<Plan>, texts: seq<string>)
      ensures |planned| == |batch| && forall k :: 0 <= k < |batch| ==> planned[k] == PlanOf(c, batch[k])
      ensures texts == Flatten(TextsByNote(planned))
    {
      planned, texts := [], [];
      for i := 0 to |batch|
        invariant |planned| == i && texts == Flatten(TextsByNote(planned))
        invariant forall k :: 0 <= k < i ==> planned[k] == PlanOf(c, batch[k])
      {
        var plan := PlanNote(batch[i]);
        TextsGrow(planned, plan);
        planned, texts := planned + [plan], texts + TextsOfChunks(plan.chunks);
      }
    }

    method PlanNote(item: (Key, NoteText)) returns (plan: Plan)
      ensures plan == PlanOf(c, item)
    {
      var cut := MakeChunks(c.patterns, item.1.title, item.1.summary, item.1.lines);
      plan := Plan(item.0, item.1.version, cut);
    }

    /** Embeds the passages of a batch in one go, and stores for each note the vectors of its own passages. */
    method EmbedBatch(batch: seq<(Key, NoteText)>)
      requires batchSize > 0
      modifies this
      ensures Now() == StoredAll(c, old(Now()), batch)
    {
      var planned, texts := PlanBatch(batch);
      var matrix := Embed(c.model, texts, batchSize);
      StoreMatrix(planned, matrix, batch);
    }

    /** Stores one note's rows from the slice of the matrix at its offset. */
    method StoreNote(planned: seq<Plan>, i: nat, matrix: seq<Vector>, offset: nat) returns (next: nat)
      requires i < |planned| && matrix == Passages(c.model, Flatten(TextsByNote(planned)))
      requires offset == |Flatten(TextsByNote(planned)[..i])|
      modifies this
      ensures next == |Flatten(TextsByNote(planned)[..i + 1])|
      ensures Now() == Stored(old(Now()), planned[i].key, planned[i].version, RowsOfChunks(c.model, planned[i].chunks))
    {
      FlattenSlice(TextsByNote(planned), i);
      var n := |planned[i].chunks|;
      var vectors := matrix[offset..offset + n];
      var rows := seq(n, k requires 0 <= k < n => ChunkRow(k, planned[i].chunks[k].heading, vectors[k]));
      SliceIsOwn(c.model, planned, i, rows);
      StoreRows(planned[i].key, planned[i].version, rows);
      next := offset + n;
    }

    method StoreMatrix(planned: seq<Plan>, matrix: seq<Vector>, ghost batch: seq<(Key, NoteText)>)
      requires |planned| == |batch| && matrix == Passages(c.model, Flatten(TextsByNote(planned)))
      requires forall k :: 0 <= k < |batch| ==> planned[k] == PlanOf(c, batch[k])
      modifies this
      ensures Now() == StoredAll(c, old(Now()), batch)
    {
      var offset := 0;
      for i := 0 to |planned|
        invariant offset == |Flatten(TextsByNote(planned)[..i])|
        invariant Now() == StoredAll(c, old(Now()), batch[..i])
      {
        offset := StoreNote(planned, i, matrix, offset);
        assert batch[..i + 1][..i] == batch[..i];
      }
      assert batch[..|batch|] == batch;
    }

    method StoreRows(key: Key, version: string, rows: seq<ChunkRow>)
      modifies this
      ensures Now() == Stored(old(Now()), key, version, rows)
    {
      if key !in notes || notes[key].version != version {
        return;
      }
      DeleteVectors(key);
      chunks := chunks + RowsFor(key, rows);
      embedded := embedded[key := version];
    }
  
    /** Embeds until nothing is pending, with nobody else at work. */
    method EmbedPending() returns (done: nat)
      requires batchSize > 0 && Known(c, notes) && (model == Some(c.model.id) ==> Means(c, Now()))
      modifies this
      ensures notes == old(notes) && Means(c, Now())
      ensures forall key :: key in embedded <==> key in notes
      ensures forall key :: key in notes ==> embedded[key] == notes[key].version
      ensures done == if old(model) == Some(c.model.id) then PendingCount(old(Now())) else |notes|
    {
      ghost var before := Now();
      DropStale();
      DroppedMeans(c, before, Now());
      DroppedCounts(c, before, Now());
      done := 0;
      while true
        invariant notes == before.notes && Means(c, Now())
        invariant forall key :: !IsStale(Now(), key)
        invariant done + PendingCount(Now()) ==
          if before.model == Some(c.model.id) then PendingCount(before) else |before.notes|
        decreases PendingCount(Now())
      {
        var batch := Pending(NOTES_PER_BATCH);
        if batch == [] {
          AllSettled(Now());
          break;
        }
        ghost var was := Now();
        EmbedBatch(batch);
        StoredAllMeans(c, was, batch);
        StoredAllSettles(c, was, batch);
        done := done + |batch|;
      }
    }
  }

  /** Dropping what is stale leaves only rows that mean the current versions. */
  lemma DroppedMeans(c: Setting, db: Db, after: Db)
    requires Dropped(c, db, after) && (db.model == Some(c.model.id) ==> Means(c, db))
    ensures Means(c, after) && forall key :: !IsStale(after, key)
  {
    forall key ensures MeansAt(c, after, key) && !IsStale(after, key) {
      assert db.model == Some(c.model.id) ==> MeansAt(c, db, key);
    }
  }

  /** Dropping what is stale leaves the pending notes pending, or all of them when the model has changed. */
  lemma DroppedCounts(c: Setting, db: Db, after: Db)
    requires Dropped(c, db, after)
    ensures PendingKeys(after) == if db.model == Some(c.model.id) then PendingKeys(db) else db.notes.Keys
    ensures PendingCount(after) == if db.model == Some(c.model.id) then PendingCount(db) else |db.notes|
  {
    forall key
      ensures key in PendingKeys(after) <==>
              if db.model == Some(c.model.id) then key in PendingKeys(db) else key in db.notes.Keys
    {
      assert key in after.embedded <==> key in Fresh(c, db).embedded && !IsStale(db, key);
    }
    assert |db.notes| == |db.notes.Keys|;
  }

  ghost function PendingKeys(db: Db): set<Key> {
    set key | key in db.notes && IsPending(db, key)
  }

  ghost function PendingCount(db: Db): nat {
    |PendingKeys(db)|
  }

  lemma AllSettled(db: Db)
    requires forall key :: !IsStale(db, key) && !IsPending(db, key)
    ensures forall key :: key in db.embedded <==> key in db.notes
    ensures forall key :: key in db.notes ==> db.embedded[key] == db.notes[key].version
  {
    forall key
      ensures key in db.embedded <==> key in db.notes
      ensures key in db.notes ==> db.embedded[key] == db.notes[key].version
    {
      assert !IsStale(db, key) && !IsPending(db, key);
    }
  }

  predicate InBatch(batch: seq<(Key, NoteText)>, key: Key) {
    exists i :: 0 <= i < |batch| && batch[i].0 == key
  }

  predicate AsRead(db: Db, batch: seq<(Key, NoteText)>) {
    forall i :: 0 <= i < |batch| ==> batch[i].0 in db.notes && batch[i].1 == db.notes[batch[i].0]
  }

  /** Storing a batch of notes as they are embeds each of them at its version, and disturbs no other. */
  lemma {:induction false} StoredAllIs(c: Setting, db: Db, batch: seq<(Key, NoteText)>, key: Key)
    requires AsRead(db, batch)
    ensures StoredAll(c, db, batch).notes == db.notes
    ensures InBatch(batch, key) ==>
              key in db.notes && key in StoredAll(c, db, batch).embedded
              && StoredAll(c, db, batch).embedded[key] == db.notes[key].version
    ensures !InBatch(batch, key) ==>
              (key in StoredAll(c, db, batch).embedded <==> key in db.embedded)
              && (key in db.embedded ==> StoredAll(c, db, batch).embedded[key] == db.embedded[key])
  {
    if batch != [] {
      var n := |batch| - 1;
      StoredAllIs(c, db, batch[..n], key);
      InLonger(batch, key);
    }
  }

  lemma InLonger(batch: seq<(Key, NoteText)>, key: Key)
    requires batch != []
    ensures InBatch(batch, key) <==> batch[|batch| - 1].0 == key || InBatch(batch[..|batch| - 1], key)
  {
    if i :| 0 <= i < |batch| && batch[i].0 == key && i < |batch| - 1 {
      assert batch[..|batch| - 1][i].0 == key;
    }
  }

  function KeysOf(batch: seq<(Key, NoteText)>): set<Key> {
    set i | 0 <= i < |batch| :: batch[i].0
  }

  lemma {:induction false} KeysCount(batch: seq<(Key, NoteText)>)
    requires forall i, j :: 0 <= i < j < |batch| ==> batch[i].0 != batch[j].0
    ensures |KeysOf(batch)| == |batch|
  {
    if batch != [] {
      var n := |batch| - 1;
      KeysCount(batch[..n]);
      assert KeysOf(batch) == KeysOf(batch[..n]) + {batch[n].0};
    }
  }

  lemma StoredAllSettles(c: Setting, db: Db, batch: seq<(Key, NoteText)>)
    requires batch != [] && forall key :: !IsStale(db, key)
    requires forall i :: 0 <= i < |batch| ==> IsPending(db, batch[i].0) && batch[i].1 == db.notes[batch[i].0]
    requires forall i, j :: 0 <= i < j < |batch| ==> batch[i].0 != batch[j].0
    ensures var after := StoredAll(c, db, batch);
      && after.notes == db.notes && PendingCount(after) == PendingCount(db) - |batch|
      && forall key :: !IsStale(after, key)
  {
    var after := StoredAll(c, db, batch);
    StoredAllIs(c, db, batch, batch[0].0);
    forall key
      ensures !IsStale(after, key)
      ensures key in PendingKeys(after) <==> key in PendingKeys(db) && key !in KeysOf(batch)
    {
      StoredAllIs(c, db, batch, key);
      assert !IsStale(db, key);
      assert InBatch(batch, key) <==> key in KeysOf(batch);
    }
    KeysCount(batch);
    assert KeysOf(batch) <= PendingKeys(db);
    assert PendingKeys(after) == PendingKeys(db) - KeysOf(batch);
  }
}
