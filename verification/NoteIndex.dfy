/** The index of the notes: four tables kept in step with the store by upserts, removals and an incremental sync
    (mindin/index.py:140-160, 278-290, 326-388, 420-467). */
module NoteIndex {
  import opened Texts
  import opened NoteTools
  import opened NoteKeys
  import Close

  /** What `parse` makes of a text: frontmatter and body, a FrontmatterError, or any other exception. */
  datatype Parsed = Parsed(fields: map<string, string>, body: string) | BadFront(error: string) | Crash(error: string)

  /** The parser and the renderers the index calls, and the languages it stems in. */
  datatype Config = Config(
    parse: string -> Parsed, tagsOf: map<string, string> -> seq<string>, pathsOf: map<string, string> -> seq<string>,
    claimOf: map<string, string> -> string, shasIn: string -> seq<string>, linkTargets: string -> seq<string>,
    stemmed: (seq<string>, string) -> string, bytes: string -> nat, languages: string)

  datatype Facts = Facts(folder: string, stem: string, title: string, summary: string, status: string, kind: string,
                         area: string, tags: seq<string>, paths: seq<string>, date: string, updated: string,
                         supersededBy: string, priority: string, source: string, claim: string)

  datatype NoteRow = NoteRow(version: string, mtime: real, size: nat, facts: Facts, valid: bool, error: string)

  datatype TextRow = TextRow(title: string, summary: string, tags: seq<string>, body: string, stem: string,
                             stemmed: string)

  /** A row of a table that may hold any number of rows for a key. */
  datatype Row<T> = Row(key: Key, value: T)

  datatype Tables = Tables(notes: map<Key, NoteRow>, texts: seq<Row<TextRow>>, shas: seq<Row<string>>,
                           links: seq<Row<string>>)

  /** Everything the tables say of one key. */
  datatype Rows = Rows(note: Option<NoteRow>, texts: seq<TextRow>, shas: seq<string>, targets: seq<string>)

  const NO_ROWS := Rows(None, [], [], [])
  const NO_TABLES := Tables(map[], [], [], [])
  const FIELD_TEXT_MAX := 10_000

  // ---- one note ----

  function AsText(fields: map<string, string>, name: string): string {
    if name !in fields then ""
    else if |fields[name]| > FIELD_TEXT_MAX then fields[name][..FIELD_TEXT_MAX] else fields[name]
  }

  function FolderOf(key: Key): string {
    if |Split(key)| > 1 then Split(key)[0] else ""
  }

  function StemOf(key: Key): string {
    var name := Split(key)[|Split(key)| - 1];
    if EndsWith(name, ".md") then name[..|name| - 3] else name
  }

  function BrokenFacts(key: Key): Facts {
    Facts(FolderOf(key), StemOf(key), StemOf(key), "", "", "", "", [], [], "", "", "", "", "", "")
  }

  function FactsFrom(c: Config, key: Key, fields: map<string, string>): Facts {
    var title := AsText(fields, "title");
    Facts(FolderOf(key), StemOf(key), if title != "" then title else StemOf(key), AsText(fields, "summary"),
          AsText(fields, "status"), AsText(fields, "kind"), AsText(fields, "area"), c.tagsOf(fields), c.pathsOf(fields),
          AsText(fields, "date"), AsText(fields, "updated"), AsText(fields, "superseded_by"),
          AsText(fields, "priority"), AsText(fields, "source"), c.claimOf(fields))
  }

  datatype Read = Read(facts: Facts, valid: bool, error: string, body: string)

  /** A note whose frontmatter cannot be read is indexed by its raw text; one that fails otherwise, by nothing. */
  function NoteFromText(c: Config, key: Key, text: string): Read {
    match c.parse(text)
    case Parsed(fields, body) => Read(FactsFrom(c, key, fields), true, "", body)
    case BadFront(error) => Read(BrokenFacts(key), false, error, text)
    case Crash(error) => Read(BrokenFacts(key), false, "could not index: " + error, "")
  }

  /** The rows a text gives. */
  function Derived(c: Config, key: Key, text: string, version: string, mtime: real, size: nat): Rows {
    var read := NoteFromText(c, key, text);
    var f := read.facts;
    Rows(Some(NoteRow(version, mtime, size, f, read.valid, read.error)),
         [TextRow(f.title, f.summary, f.tags, read.body, f.stem,
                  c.stemmed([f.title, f.summary] + f.tags + [read.body, f.stem], c.languages))],
         c.shasIn(text), c.linkTargets(text))
  }

  // ---- what a row says ----

  /** A fact is the field, cut at the limit, or empty without the field. */
  predicate IsCut(fact: string, fields: map<string, string>, name: string) {
    if name !in fields then fact == ""
    else fact <= fields[name] && |fact| == if |fields[name]| <= 10_000 then |fields[name]| else 10_000
  }

  /** Facts that say what a frontmatter says, each field under its own name; an untitled note is known by its stem. */
  predicate FactsSay(c: Config, f: Facts, fields: map<string, string>) {
    && IsCut(f.summary, fields, "summary") && IsCut(f.status, fields, "status") && IsCut(f.kind, fields, "kind")
    && IsCut(f.area, fields, "area") && IsCut(f.date, fields, "date") && IsCut(f.updated, fields, "updated")
    && IsCut(f.supersededBy, fields, "superseded_by") && IsCut(f.priority, fields, "priority")
    && IsCut(f.source, fields, "source")
    && f.tags == c.tagsOf(fields) && f.paths == c.pathsOf(fields) && f.claim == c.claimOf(fields)
    && (if IsCut("", fields, "title") then f.title == f.stem else f.title != "" && IsCut(f.title, fields, "title"))
  }

  lemma AsTextCuts(fields: map<string, string>, name: string)
    ensures IsCut(AsText(fields, name), fields, name)
    ensures AsText(fields, name) == "" <==> IsCut("", fields, name)
  {
  }

  lemma FactsAreSaid(c: Config, key: Key, fields: map<string, string>)
    ensures FactsSay(c, FactsFrom(c, key, fields), fields)
  {
    AsTextCuts(fields, "title");
    AsTextCuts(fields, "summary");
    AsTextCuts(fields, "status");
    AsTextCuts(fields, "kind");
    AsTextCuts(fields, "area");
    AsTextCuts(fields, "date");
    AsTextCuts(fields, "updated");
    AsTextCuts(fields, "superseded_by");
    AsTextCuts(fields, "priority");
    AsTextCuts(fields, "source");
  }

  /** What the search finds of a note. */
  predicate FindsBy(found: TextRow, f: Facts, body: string) {
    && found.title == f.title && found.summary == f.summary && found.tags == f.tags && found.stem == f.stem
    && found.body == body
  }

  /** A row of a note that can be read says what its frontmatter says. One that cannot be read is known by its stem alone
      and marked with the error, and the search finds its raw text, if the frontmatter was the trouble. */
  lemma RowSaysTheNote(c: Config, key: Key, text: string, version: string, mtime: real, size: nat)
    ensures var rows := Derived(c, key, text, version, mtime, size);
      && rows.note.Some? && |rows.texts| == 1
      && var row, found := rows.note.value, rows.texts[0];
         && row.version == version && row.mtime == mtime && row.size == size
         && rows.shas == c.shasIn(text) && rows.targets == c.linkTargets(text)
         && match c.parse(text)
            case Parsed(fields, body) =>
              row.valid && row.error == "" && FactsSay(c, row.facts, fields) && FindsBy(found, row.facts, body)
            case BadFront(error) =>
              !row.valid && row.error == error && row.facts.title == row.facts.stem && FindsBy(found, row.facts, text)
            case Crash(error) =>
              !row.valid && EndsWith(row.error, error) && row.facts.title == row.facts.stem
              && FindsBy(found, row.facts, "")
  {
    match c.parse(text)
    case Parsed(fields, _) => FactsAreSaid(c, key, fields);
    case _ =>
  }

  lemma {:induction false} EndsInItsName(key: Key)
    ensures EndsWith(key, Close.BaseName(key))
    ensures var before := |key| - |Close.BaseName(key)|; before == 0 || key[before - 1] == '/'
  {
    var name := Close.BaseName(key);
    if key != "" && key[|key| - 1] != '/' {
      EndsInItsName(key[..|key| - 1]);
      var shorter := Close.BaseName(key[..|key| - 1]);
      assert name == shorter + [key[|key| - 1]];
      assert key[|key| - |name|..] == key[..|key| - 1][|key| - 1 - |shorter|..] + [key[|key| - 1]];
    } else {
      assert name == "" && key[|key|..] == "";
    }
  }

  lemma {:induction false} SegmentsBegin(key: Key)
    ensures var first := Split(key)[0];
      '/' !in first && if |Split(key)| == 1 then key == first else StartsWith(key, first + "/")
  {
    if key != "" {
      SegmentsBegin(key[1..]);
      assert key == [key[0]] + key[1..];
    }
  }

  lemma StemIsLast(key: Key, name: string)
    requires EndsWith(key, ".md") && name == Split(key)[|Split(key)| - 1] && '/' !in name
    requires EndsWith(key, name) && (|name| == |key| || key[|key| - |name| - 1] == '/')
    ensures StemOf(key) + ".md" == name && '/' !in StemOf(key)
  {
    NameHasSuffix(key, name);
  }

  lemma FolderIsFirst(key: Key)
    ensures '/' !in FolderOf(key)
    ensures if '/' in key then StartsWith(key, FolderOf(key) + "/") else FolderOf(key) == ""
  {
    SegmentsBegin(key);
    var first := Split(key)[0];
    if |Split(key)| > 1 {
      assert key[|first|] == '/';
    }
  }

  /** The folder of a note is what stands before its first slash, and its stem what stands after the last, without the
      suffix. */
  lemma FolderAndStem(key: Key)
    requires EndsWith(key, ".md")
    ensures '/' !in FolderOf(key) && '/' !in StemOf(key) && EndsWith(key, StemOf(key) + ".md")
    ensures if '/' in key then StartsWith(key, FolderOf(key) + "/") else FolderOf(key) == ""
  {
    BaseNameIsASegment(key);
    EndsInItsName(key);
    StemIsLast(key, Close.BaseName(key));
    FolderIsFirst(key);
  }

  lemma NameHasSuffix(key: Key, name: string)
    requires EndsWith(key, ".md") && EndsWith(key, name)
    requires |name| == |key| || key[|key| - |name| - 1] == '/'
    ensures EndsWith(name, ".md") && name[..|name| - 3] + ".md" == name
  {
    var end := key[|key| - 3..];
    assert end == ".md" && end[0] == key[|key| - 3] && end[1] == key[|key| - 2] && end[2] == key[|key| - 1];
    assert |name| >= 3;
    assert name[|name| - 3..] == end;
  }

  // ---- the tables, key by key ----

  function ValuesOf<T>(rows: seq<Row<T>>, key: Key): seq<T> {
    if rows == [] then []
    else if rows[0].key == key then [rows[0].value] + ValuesOf(rows[1..], key)
    else ValuesOf(rows[1..], key)
  }

  function RowsAt(t: Tables, key: Key): Rows {
    Rows(if key in t.notes then Some(t.notes[key]) else None, ValuesOf(t.texts, key), ValuesOf(t.shas, key),
         ValuesOf(t.links, key))
  }

  // ---- DELETE and INSERT ----

  function RowsLeft<T>(rows: seq<Row<T>>, key: Key): seq<Row<T>> {
    if rows == [] then []
    else if rows[0].key == key then RowsLeft(rows[1..], key)
    else [rows[0]] + RowsLeft(rows[1..], key)
  }

  function RowsFor<T>(key: Key, values: seq<T>): seq<Row<T>> {
    if values == [] then [] else [Row(key, values[0])] + RowsFor(key, values[1..])
  }

  function Deleted(t: Tables, key: Key): Tables {
    Tables(t.notes - {key}, RowsLeft(t.texts, key), RowsLeft(t.shas, key), RowsLeft(t.links, key))
  }

  function Inserted(t: Tables, key: Key, rows: Rows): Tables
    requires rows.note.Some?
  {
    Tables(t.notes[key := rows.note.value], t.texts + RowsFor(key, rows.texts), t.shas + RowsFor(key, rows.shas),
           t.links + RowsFor(key, rows.targets))
  }

  function Upserted(c: Config, t: Tables, key: Key, text: string, version: string, mtime: real, size: nat): Tables {
    Inserted(Deleted(t, key), key, Derived(c, key, text, version, mtime, size))
  }

  lemma {:induction false} ValuesAfterDelete<T>(rows: seq<Row<T>>, key: Key, other: Key)
    ensures ValuesOf(RowsLeft(rows, key), other) == if other == key then [] else ValuesOf(rows, other)
  {
    if rows != [] {
      ValuesAfterDelete(rows[1..], key, other);
      if rows[0].key != key {
        assert ([rows[0]] + RowsLeft(rows[1..], key))[1..] == RowsLeft(rows[1..], key);
      }
    }
  }

  lemma {:induction false} ValuesAfterInsert<T>(rows: seq<Row<T>>, key: Key, values: seq<T>, other: Key)
    ensures ValuesOf(rows + RowsFor(key, values), other) ==
            ValuesOf(rows, other) + if other == key then values else []
  {
    if rows != [] {
      ValuesAfterInsert(rows[1..], key, values, other);
      assert (rows + RowsFor(key, values))[1..] == rows[1..] + RowsFor(key, values);
    } else {
      ValuesOfNewRows(key, values, other);
      assert rows + RowsFor(key, values) == RowsFor(key, values);
    }
  }

  lemma {:induction false} ValuesOfNewRows<T>(key: Key, values: seq<T>, other: Key)
    ensures ValuesOf(RowsFor(key, values), other) == if other == key then values else []
  {
    if values != [] {
      ValuesOfNewRows(key, values[1..], other);
      assert RowsFor(key, values)[1..] == RowsFor(key, values[1..]);
      assert values == [values[0]] + values[1..];
    }
  }

  /** A deletion empties one key and leaves the others. */
  lemma DeletedAt(t: Tables, key: Key, other: Key)
    ensures RowsAt(Deleted(t, key), other) == if other == key then NO_ROWS else RowsAt(t, other)
  {
    ValuesAfterDelete(t.texts, key, other);
    ValuesAfterDelete(t.shas, key, other);
    ValuesAfterDelete(t.links, key, other);
  }

  /** An insertion adds its rows under one key and leaves the others. */
  lemma InsertedAt(t: Tables, key: Key, rows: Rows, other: Key)
    requires rows.note.Some? && RowsAt(t, key) == NO_ROWS
    ensures RowsAt(Inserted(t, key, rows), other) == if other == key then rows else RowsAt(t, other)
  {
    ValuesAfterInsert(t.texts, key, rows.texts, other);
    ValuesAfterInsert(t.shas, key, rows.shas, other);
    ValuesAfterInsert(t.links, key, rows.targets, other);
  }

  /** An upsert leaves exactly the rows of the new text under its key, however many the old one had. */
  lemma UpsertedAt(c: Config, t: Tables, key: Key, text: string, version: string, mtime: real, size: nat, other: Key)
    ensures RowsAt(Upserted(c, t, key, text, version, mtime, size), other) ==
            if other == key then Derived(c, key, text, version, mtime, size) else RowsAt(t, other)
  {
    DeletedAt(t, key, other);
    DeletedAt(t, key, key);
    InsertedAt(Deleted(t, key), key, Derived(c, key, text, version, mtime, size), other);
  }

  // ---- a sync against a store that holds still ----

  /** A stored object as the listing shows it, and its text if it decodes. */
  datatype File = File(text: Option<string>, version: string, mtime: real, size: nat)

  type Store = map<Key, File>

  predicate Listed(store: Store, key: Key) {
    key in store && IsListedNote(key)
  }

  /** The reads that fail: those of undecodable objects, and those the backend fails. */
  predicate Unreadable(store: Store, failed: set<Key>, key: Key) {
    Listed(store, key) && (key in failed || store[key].text.None?)
  }

  predicate Current(t: Tables, store: Store, key: Key) {
    Listed(store, key) && key in t.notes && t.notes[key].version == store[key].version
  }

  function Changed(t: Tables, store: Store): set<Key> {
    set key | key in store && Listed(store, key) && !Current(t, store, key)
  }

  /** What an incremental sync leaves under a key. */
  function SyncedAt(c: Config, t: Tables, store: Store, failed: set<Key>, key: Key): Rows {
    if !Listed(store, key) then NO_ROWS
    else if Current(t, store, key) || Unreadable(store, failed, key) then RowsAt(t, key)
    else Derived(c, key, store[key].text.value, store[key].version, store[key].mtime, store[key].size)
  }

  ghost predicate Synced(c: Config, t: Tables, store: Store, failed: set<Key>, after: Tables) {
    forall key :: RowsAt(after, key) == SyncedAt(c, t, store, failed, key)
  }

  /** No table holds a row of a key without a note row. */
  ghost predicate Tidy(t: Tables) {
    forall key :: key in t.notes || RowsAt(t, key) == NO_ROWS
  }

  type Contents = (Key, string) -> Option<string>

  /** Versions determine content, and sizes are those of the texts. */
  ghost predicate Determined(c: Config, store: Store, content: Contents) {
    forall key :: key in store ==>
      store[key].text == content(key, store[key].version)
      && (store[key].text.Some? ==> store[key].size == c.bytes(store[key].text.value))
  }

  /** The rows of a key derive from the version they name. */
  predicate DerivesAt(c: Config, t: Tables, content: Contents, key: Key) {
    if key !in t.notes then RowsAt(t, key) == NO_ROWS
    else
      var row := t.notes[key];
      var text := content(key, row.version);
      text.Some? && RowsAt(t, key) == Derived(c, key, text.value, row.version, row.mtime, c.bytes(text.value))
  }

  ghost predicate Derives(c: Config, t: Tables, content: Contents) {
    forall key :: DerivesAt(c, t, content, key)
  }

  function Untimed(rows: Rows): Rows {
    if rows.note.Some? then rows.(note := Some(rows.note.value.(mtime := 0.0))) else rows
  }

  ghost predicate SameButTimes(a: Tables, b: Tables) {
    forall key :: Untimed(RowsAt(a, key)) == Untimed(RowsAt(b, key))
  }

  lemma NothingAt(key: Key)
    ensures RowsAt(NO_TABLES, key) == NO_ROWS
  {
  }

  lemma SameAt(c: Config, t: Tables, store: Store, content: Contents, failed: set<Key>, key: Key)
    requires DerivesAt(c, t, content, key) && Determined(c, store, content)
    ensures Untimed(SyncedAt(c, t, store, failed, key)) == Untimed(SyncedAt(c, NO_TABLES, store, failed, key))
       <==> !(Unreadable(store, failed, key) && key in t.notes)
  {
    NothingAt(key);
  }

  /** An incremental sync gives what a rebuild gives, up to times, exactly when no listed note that cannot be read has
      a row: the sync keeps that row, the rebuild cannot make it again. */
  lemma SyncIsRebuild(c: Config, t: Tables, store: Store, content: Contents, failed: set<Key>, synced: Tables,
                      rebuilt: Tables)
    requires Derives(c, t, content) && Determined(c, store, content)
    requires Synced(c, t, store, failed, synced) && Synced(c, NO_TABLES, store, failed, rebuilt)
    ensures SameButTimes(synced, rebuilt) <==> forall key :: key in t.notes ==> !Unreadable(store, failed, key)
  {
    forall key
      ensures Untimed(RowsAt(synced, key)) == Untimed(RowsAt(rebuilt, key))
         <==> !(Unreadable(store, failed, key) && key in t.notes)
    {
      assert DerivesAt(c, t, content, key);
      SameAt(c, t, store, content, failed, key);
      assert RowsAt(synced, key) == SyncedAt(c, t, store, failed, key);
      assert RowsAt(rebuilt, key) == SyncedAt(c, NO_TABLES, store, failed, key);
    }
  }

  /** After a sync every listed note that can be read shows its stored content, and a key that is no listed note shows
      nothing. */
  lemma SyncShowsWhatCanBeRead(c: Config, t: Tables, store: Store, content: Contents, failed: set<Key>, after: Tables,
                               key: Key)
    requires Derives(c, t, content) && Determined(c, store, content) && Synced(c, t, store, failed, after)
    ensures !(key in store && IsListedNote(key)) ==> RowsAt(after, key) == NO_ROWS
    ensures key in store && IsListedNote(key) && key !in failed && store[key].text.Some? ==>
              Untimed(RowsAt(after, key)) ==
              Untimed(Derived(c, key, store[key].text.value, store[key].version, store[key].mtime, store[key].size))
  {
    assert DerivesAt(c, t, content, key);
    assert RowsAt(after, key) == SyncedAt(c, t, store, failed, key);
  }

  /** Every row of a synced index still derives from the version it names. */
  lemma SyncKeepsDerivation(c: Config, t: Tables, store: Store, content: Contents, failed: set<Key>, after: Tables)
    requires Derives(c, t, content) && Determined(c, store, content) && Synced(c, t, store, failed, after)
    ensures Derives(c, after, content)
  {
    forall key ensures DerivesAt(c, after, content, key) {
      assert DerivesAt(c, t, content, key);
      assert RowsAt(after, key) == SyncedAt(c, t, store, failed, key);
    }
  }

  // ---- index and store in agreement ----

  predicate AgreesAt(c: Config, t: Tables, store: Store, key: Key) {
    if !Listed(store, key) then RowsAt(t, key) == NO_ROWS
    else
      && store[key].text.Some? && key in t.notes
      && RowsAt(t, key) == Derived(c, key, store[key].text.value, store[key].version, t.notes[key].mtime, store[key].size)
  }

  ghost predicate Agrees(c: Config, t: Tables, store: Store) {
    forall key :: AgreesAt(c, t, store, key)
  }

  /** On an index in agreement with the store a sync fetches nothing and changes nothing. */
  lemma AgreedSyncIsIdle(c: Config, t: Tables, store: Store, failed: set<Key>, after: Tables)
    requires Agrees(c, t, store) && Synced(c, t, store, failed, after)
    ensures Changed(t, store) == {} && forall key :: RowsAt(after, key) == RowsAt(t, key)
  {
    forall key
      ensures RowsAt(after, key) == RowsAt(t, key) && (Listed(store, key) ==> Current(t, store, key))
    {
      assert AgreesAt(c, t, store, key);
      assert RowsAt(after, key) == SyncedAt(c, t, store, failed, key);
    }
  }

  /** A sync brings the index into agreement exactly when every listed note that is not current can be read. */
  lemma SyncAgrees(c: Config, t: Tables, store: Store, content: Contents, failed: set<Key>, after: Tables)
    requires Derives(c, t, content) && Determined(c, store, content) && Synced(c, t, store, failed, after)
    ensures Agrees(c, after, store) <==> forall key :: key in Changed(t, store) ==> !Unreadable(store, failed, key)
  {
    forall key
      ensures AgreesAt(c, after, store, key) <==> !(key in Changed(t, store) && Unreadable(store, failed, key))
    {
      assert DerivesAt(c, t, content, key);
      assert RowsAt(after, key) == SyncedAt(c, t, store, failed, key);
    }
  }

  // ---- the tools that write ----

  datatype Tool =
    | PutNote(key: Key, text: string, version: string, stored: real, indexed: real)
    | MoveNote(src: Key, dst: Key, version: string, stored: real, indexed: real)
    | DeleteNote(key: Key)
    | ArchiveNote(path: Key, dest: Key, text: string, version: string, stored: real, indexed: real)

  /** A backend's move: a rename leaves a note moved onto itself, a copy and delete loses it. */
  datatype Mover = Renames | CopiesAndDeletes

  datatype World = World(tables: Tables, store: Store)

  function FileOf(c: Config, text: string, version: string, mtime: real): File {
    File(Some(text), version, mtime, c.bytes(text))
  }

  function Reindexed(c: Config, t: Tables, key: Key, text: string, version: string, time: real): Tables {
    Upserted(c, t, key, text, version, time, c.bytes(text))
  }

  function MovedStore(m: Mover, store: Store, src: Key, dst: Key, file: File): Store {
    if src == dst && m.Renames? then store[dst := file] else store[dst := file] - {src}
  }

  /** What a tool that got past its checks does to the store and then to the index; None is a NotFound. */
  function Effect(c: Config, m: Mover, w: World, tool: Tool): World {
    match tool
    case PutNote(key, text, version, stored, indexed) =>
      World(Reindexed(c, w.tables, key, text, version, indexed), w.store[key := FileOf(c, text, version, stored)])
    case DeleteNote(key) =>
      if key !in w.store then w else World(Deleted(w.tables, key), w.store - {key})
    case MoveNote(src, dst, version, stored, indexed) =>
      if src !in w.store || w.store[src].text.None? then w
      else
        var text := w.store[src].text.value;
        var moved := MovedStore(m, w.store, src, dst, FileOf(c, text, version, stored));
        if dst !in moved then w.(store := moved)
        else World(Reindexed(c, Deleted(w.tables, src), dst, text, version, indexed), moved)
    case ArchiveNote(path, dest, text, version, stored, indexed) =>
      if path !in w.store then w
      else World(Reindexed(c, Deleted(w.tables, path), dest, text, version, indexed),
                 w.store[dest := FileOf(c, text, version, stored)] - {path})
  }

  function TextAt(store: Store, key: Key): Option<string> {
    if key in store then store[key].text else None
  }

  /** The text a tool leaves under a key of the store. */
  function TextAfter(m: Mover, store: Store, tool: Tool, key: Key): Option<string> {
    match tool
    case PutNote(k, text, _, _, _) => if key == k then Some(text) else TextAt(store, key)
    case DeleteNote(k) => if key == k then None else TextAt(store, key)
    case MoveNote(src, dst, _, _, _) =>
      if TextAt(store, src).None? then TextAt(store, key)
      else if src == dst then if key == src && m.CopiesAndDeletes? then None else TextAt(store, key)
      else if key == src then None else if key == dst then TextAt(store, src) else TextAt(store, key)
    case ArchiveNote(path, dest, text, _, _, _) =>
      if path !in store then TextAt(store, key)
      else if key == path then None else if key == dest then Some(text) else TextAt(store, key)
  }

  /** The tools leave in the store what they should, under every key. */
  lemma StoreAfterTool(c: Config, m: Mover, w: World, tool: Tool, key: Key)
    ensures TextAt(Effect(c, m, w, tool).store, key) == TextAfter(m, w.store, tool, key)
  {
  }

  lemma ReindexAgreesAt(c: Config, t: Tables, store: Store, key: Key, text: string, version: string, stored: real,
                        indexed: real, other: Key)
    requires AgreesAt(c, t, store, other) || other == key
    ensures AgreesAt(c, Reindexed(c, t, key, text, version, indexed), store[key := FileOf(c, text, version, stored)], other)
       <==> other != key || IsListedNote(key)
  {
    UpsertedAt(c, t, key, text, version, indexed, c.bytes(text), other);
  }

  lemma DeleteAgreesAt(c: Config, t: Tables, store: Store, key: Key, other: Key)
    requires AgreesAt(c, t, store, other) || other == key
    ensures AgreesAt(c, Deleted(t, key), store - {key}, other)
  {
    DeletedAt(t, key, other);
  }

  /** Storing a text and indexing it keeps the agreement exactly when the key is a note the listing shows. */
  lemma PutKeepsAgreement(c: Config, m: Mover, w: World, tool: Tool)
    requires Agrees(c, w.tables, w.store) && tool.PutNote?
    ensures var after := Effect(c, m, w, tool); Agrees(c, after.tables, after.store) <==> IsListedNote(tool.key)
  {
    var after := Effect(c, m, w, tool);
    forall key ensures AgreesAt(c, after.tables, after.store, key) <==> key != tool.key || IsListedNote(tool.key) {
      assert AgreesAt(c, w.tables, w.store, key);
      ReindexAgreesAt(c, w.tables, w.store, tool.key, tool.text, tool.version, tool.stored, tool.indexed, key);
    }
    assert AgreesAt(c, after.tables, after.store, tool.key) <==> IsListedNote(tool.key);
  }

  lemma DeleteKeepsAgreement(c: Config, m: Mover, w: World, tool: Tool)
    requires Agrees(c, w.tables, w.store) && tool.DeleteNote?
    ensures var after := Effect(c, m, w, tool); Agrees(c, after.tables, after.store)
  {
    var after := Effect(c, m, w, tool);
    forall key ensures AgreesAt(c, after.tables, after.store, key) {
      assert AgreesAt(c, w.tables, w.store, key);
      DeleteAgreesAt(c, w.tables, w.store, tool.key, key);
    }
  }

  lemma RelocationAgreesAt(c: Config, t: Tables, store: Store, src: Key, dst: Key, text: string, version: string,
                           stored: real, indexed: real, other: Key)
    requires AgreesAt(c, t, store, other) && src != dst && IsListedNote(dst)
    ensures AgreesAt(c, Reindexed(c, Deleted(t, src), dst, text, version, indexed),
                     store[dst := FileOf(c, text, version, stored)] - {src}, other)
  {
    DeleteAgreesAt(c, t, store, src, other);
    ReindexAgreesAt(c, Deleted(t, src), store - {src}, dst, text, version, stored, indexed, other);
    var file := FileOf(c, text, version, stored);
    assert store[dst := file] - {src} == (store - {src})[dst := file];
  }

  /** Moving a note keeps the agreement, except that a backend which copies and deletes loses a note moved onto
      itself, and its row stays behind. */
  lemma MoveKeepsAgreement(c: Config, m: Mover, w: World, tool: Tool)
    requires Agrees(c, w.tables, w.store) && tool.MoveNote?
    requires NoteKey(tool.src, false).Ok? && NoteKey(tool.dst, false).Ok?
    ensures var after := Effect(c, m, w, tool);
      Agrees(c, after.tables, after.store) <==> !(m.CopiesAndDeletes? && tool.src == tool.dst && tool.src in w.store)
  {
    AcceptedIsListed(tool.src);
    AcceptedIsListed(tool.dst);
    assert AgreesAt(c, w.tables, w.store, tool.src);
    if tool.src in w.store {
      var after, text := Effect(c, m, w, tool), w.store[tool.src].text.value;
      if tool.src != tool.dst {
        forall key ensures AgreesAt(c, after.tables, after.store, key) {
          assert AgreesAt(c, w.tables, w.store, key);
          RelocationAgreesAt(c, w.tables, w.store, tool.src, tool.dst, text, tool.version, tool.stored, tool.indexed, key);
        }
      } else if m.Renames? {
        forall key ensures AgreesAt(c, after.tables, after.store, key) {
          assert AgreesAt(c, w.tables, w.store, key);
          MovedInPlaceAt(c, w.tables, w.store, tool.src, text, tool.version, tool.stored, tool.indexed, key);
        }
      } else {
        assert !AgreesAt(c, after.tables, after.store, tool.src);
      }
    }
  }

  lemma MovedInPlaceAt(c: Config, t: Tables, store: Store, key: Key, text: string, version: string, stored: real,
                       indexed: real, other: Key)
    requires AgreesAt(c, t, store, other) && IsListedNote(key)
    ensures AgreesAt(c, Reindexed(c, Deleted(t, key), key, text, version, indexed),
                     store[key := FileOf(c, text, version, stored)], other)
  {
    DeletedAt(t, key, other);
    UpsertedAt(c, Deleted(t, key), key, text, version, indexed, c.bytes(text), other);
  }

  /** Closing a note into a folder of the schema keeps the agreement, whichever free name it takes. */
  lemma ArchiveKeepsAgreement(c: Config, m: Mover, w: World, tool: Tool, folder: Key, number: nat)
    requires Agrees(c, w.tables, w.store) && tool.ArchiveNote?
    requires NoteKey(tool.path, false).Ok? && IsFolder(folder)
    requires tool.dest == Close.Candidate(folder, Close.Stem(tool.path), number) && tool.dest !in w.store
    ensures var after := Effect(c, m, w, tool); Agrees(c, after.tables, after.store)
  {
    CandidateIsListed(folder, tool.path, number);
    if tool.path in w.store {
      var after := Effect(c, m, w, tool);
      forall key ensures AgreesAt(c, after.tables, after.store, key) {
        assert AgreesAt(c, w.tables, w.store, key);
        RelocationAgreesAt(c, w.tables, w.store, tool.path, tool.dest, tool.text, tool.version, tool.stored,
                           tool.indexed, key);
      }
    }
  }

  // ---- the objects ----

  /** What fetching the given notes leaves under a key. */
  function FetchedAt(c: Config, t: Tables, store: Store, failed: set<Key>, fetched: set<Key>, key: Key): Rows {
    if key in fetched && key in store && store[key].text.Some? && !Unreadable(store, failed, key)
    then Derived(c, key, store[key].text.value, store[key].version, store[key].mtime, store[key].size)
    else RowsAt(t, key)
  }

  const SYNC_THROTTLE_SECONDS := 20.0

  /** The tables of one vault's index. */
  class Index {
    const c: Config
    var notes: map<Key, NoteRow>
    var texts: seq<Row<TextRow>>
    var shas: seq<Row<string>>
    var links: seq<Row<string>>
    var lastSync: real

    ghost function Now(): Tables
      reads this
    {
      Tables(notes, texts, shas, links)
    }

    /** An empty index for the given languages. */
    constructor (c: Config)
      ensures this.c == c && Now() == NO_TABLES && lastSync == 0.0
    {
      this.c, lastSync := c, 0.0;
      notes, texts, shas, links := map[], [], [], [];
    }

    method Remove(key: Key)
      modifies this
      ensures Now() == Deleted(old(Now()), key) && lastSync == old(lastSync)
    {
      notes := notes - {key};
      texts := RowsLeft(texts, key);
      shas := RowsLeft(shas, key);
      links := RowsLeft(links, key);
    }

    method Upsert(key: Key, text: string, version: string, mtime: real, size: nat) returns (note: NoteRow)
      modifies this
      ensures Now() == Upserted(c, old(Now()), key, text, version, mtime, size) && lastSync == old(lastSync)
      ensures Some(note) == Derived(c, key, text, version, mtime, size).note
    {
      var rows := Derived(c, key, text, version, mtime, size);
      note := rows.note.value;
      Remove(key);
      notes := notes[key := note];
      texts := texts + RowsFor(key, rows.texts);
      shas := shas + RowsFor(key, rows.shas);
      links := links + RowsFor(key, rows.targets);
    }

    /** Reads the changed notes and indexes those that could be read. */
    method Fetch(changed: set<Key>, store: Store, failed: set<Key>)
      requires forall key :: key in changed ==> Listed(store, key)
      modifies this
      ensures lastSync == old(lastSync)
      ensures forall key :: RowsAt(Now(), key) == FetchedAt(c, old(Now()), store, failed, changed, key)
    {
      var left := changed;
      while left != {}
        invariant left <= changed && lastSync == old(lastSync)
        invariant forall key :: RowsAt(Now(), key) == FetchedAt(c, old(Now()), store, failed, changed - left, key)
      {
        var entry :| entry in left;
        left := left - {entry};
        if !Unreadable(store, failed, entry) {
          var file := store[entry];
          ghost var before := Now();
          var _ := Upsert(entry, file.text.value, file.version, file.mtime, file.size);
          forall key {
            UpsertedAt(c, before, entry, file.text.value, file.version, file.mtime, file.size, key);
          }
        }
      }
    }

    method RemoveGone(gone: set<Key>)
      modifies this
      ensures lastSync == old(lastSync)
      ensures forall key :: RowsAt(Now(), key) == if key in gone then NO_ROWS else RowsAt(old(Now()), key)
    {
      var left := gone;
      while left != {}
        invariant left <= gone && lastSync == old(lastSync)
        invariant forall key :: RowsAt(Now(), key) == if key in gone - left then NO_ROWS else RowsAt(old(Now()), key)
      {
        var key :| key in left;
        ghost var before := Now();
        Remove(key);
        forall other {
          DeletedAt(before, key, other);
        }
        left := left - {key};
      }
    }

    /** Brings the index up to the listing, unless the last sync is too recent; returns how many notes had changed. */
    method Sync(store: Store, failed: set<Key>, now: real, force: bool) returns (fetched: nat)
      requires Tidy(Now())
      modifies this
      ensures !force && now - old(lastSync) < SYNC_THROTTLE_SECONDS ==>
        Now() == old(Now()) && lastSync == old(lastSync) && fetched == 0
      ensures force || now - old(lastSync) >= SYNC_THROTTLE_SECONDS ==>
        Synced(c, old(Now()), store, failed, Now()) && lastSync == now && fetched == |Changed(old(Now()), store)|
    {
      if !force && now - lastSync < SYNC_THROTTLE_SECONDS {
        return 0;
      }
      ghost var before := Now();
      var entries := set key | key in store && IsListedNote(key);
      var changed := set key | key in entries && !(key in notes && notes[key].version == store[key].version);
      assert changed == Changed(before, store);
      RemoveGone(notes.Keys - entries);
      ghost var kept := Now();
      Fetch(changed, store, failed);
      lastSync := now;
      fetched := |changed|;
      forall key ensures RowsAt(Now(), key) == SyncedAt(c, before, store, failed, key) {
        assert key in before.notes || RowsAt(before, key) == NO_ROWS;
        assert RowsAt(kept, key) == if key in before.notes.Keys - entries then NO_ROWS else RowsAt(before, key);
        assert RowsAt(Now(), key) == FetchedAt(c, kept, store, failed, changed, key);
        assert key in changed <==> Listed(store, key) && !Current(before, store, key);
      }
    }

    /** Forgets every row, and when the last sync was. */
    method Forget()
      modifies this
      ensures Now() == NO_TABLES && lastSync == 0.0
    {
      notes, texts, shas, links, lastSync := map[], [], [], [], 0.0;
    }

    method Rebuild(store: Store, failed: set<Key>, now: real) returns (fetched: nat)
      modifies this
      ensures Synced(c, NO_TABLES, store, failed, Now()) && lastSync == now
    {
      Forget();
      fetched := Sync(store, failed, now, true);
    }
  }

  /** A vault whose tools write the store and then the index. */
  class NoteVault {
    const index: Index
    const mover: Mover
    var store: Store

    constructor (index: Index, mover: Mover)
      ensures this.index == index && this.mover == mover && store == map[]
    {
      this.index, this.mover, store := index, mover, map[];
    }

    ghost function Now(): World
      reads this, index
    {
      World(index.Now(), store)
    }

    method Reindex(key: Key, text: string, version: string, time: real)
      modifies index
      ensures index.Now() == Reindexed(index.c, old(index.Now()), key, text, version, time)
    {
      var _ := index.Upsert(key, text, version, time, index.c.bytes(text));
    }

    method Put(key: Key, text: string, version: string, stored: real, indexed: real)
      modifies this, index
      ensures Now() == Effect(index.c, mover, old(Now()), PutNote(key, text, version, stored, indexed))
    {
      store := store[key := FileOf(index.c, text, version, stored)];
      Reindex(key, text, version, indexed);
    }

    method Delete(key: Key) returns (found: bool)
      modifies this, index
      ensures found <==> key in old(store)
      ensures Now() == Effect(index.c, mover, old(Now()), DeleteNote(key))
    {
      if key !in store {
        return false;
      }
      store := store - {key};
      index.Remove(key);
      found := true;
    }

    method Move(src: Key, dst: Key, version: string, stored: real, indexed: real) returns (moved: bool)
      modifies this, index
      ensures moved ==> src in old(store) && dst in store && store[dst].text == old(store)[src].text
      ensures Now() == Effect(index.c, mover, old(Now()), MoveNote(src, dst, version, stored, indexed))
    {
      if src !in store || store[src].text.None? {
        return false;
      }
      var text := store[src].text.value;
      store := MovedStore(mover, store, src, dst, FileOf(index.c, text, version, stored));
      if dst !in store {
        return false;
      }
      index.Remove(src);
      Reindex(dst, store[dst].text.value, version, indexed);
      moved := true;
    }

    method Archive(path: Key, dest: Key, text: string, version: string, stored: real, indexed: real)
      returns (closed: bool)
      modifies this, index
      ensures closed <==> path in old(store)
      ensures Now() == Effect(index.c, mover, old(Now()), ArchiveNote(path, dest, text, version, stored, indexed))
    {
      if path !in store {
        return false;
      }
      store := store[dest := FileOf(index.c, text, version, stored)];
      store := store - {path};
      index.Remove(path);
      Reindex(dest, text, version, indexed);
      closed := true;
    }
  }
}
