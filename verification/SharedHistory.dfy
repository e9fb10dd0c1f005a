/** A shared vault and its history: every recorded write, delete and move leaves a row, and the rows replay to what is
    stored (mindin/shared.py:68-185, mindin/auth/hosted_history.py:63-168). */
module SharedHistory {
  import opened Texts
  import opened SealedNames
  import NoteKeys

  type Key = string
  type Bytes = seq<Byte>
  type Blob = string

  datatype Actor = Actor(email: string, account: Option<string>, client: string)
  datatype Action = Created | Updated | Deleted | Moved

  datatype File = File(data: Bytes, version: nat)

  /** A row of the history: paths by their sealed names, contents by the names of their blobs. */
  datatype Row = Row(path: string, src: Option<string>, action: Action, author: Actor, before: Option<Blob>,
                     after: Option<Blob>, restoredFrom: Option<nat>)

  /** The stored files, the version the next write gets, the kept contents and the rows, oldest first. */
  datatype Shared = Shared(files: map<Key, File>, next: nat, blobs: map<Blob, Bytes>, rows: seq<Row>)

  /** The name cipher of the history, its keyed hash, and the kind that a note's frontmatter gives. */
  datatype Config = Config(names: Names, blobId: Bytes -> Blob, kindOf: Bytes -> Option<string>)

  datatype Error = NotFound | Conflict | RefusedLayout | RefusedFolder | RefusedKind | BadPath | IsFolder
  datatype Outcome = Done(state: Shared) | Failed(error: Error)
  datatype Expect = Anything | Absent | Exactly(version: nat)

  /** The hash has no collisions, and the cipher keeps its laws. */
  ghost predicate Sound(c: Config) {
    && Lawful(c.names)
    && forall a, b :: c.blobId(a) == c.blobId(b) ==> a == b
  }

  // ---- what is recorded, and what is allowed ----

  predicate Recorded(key: Key) {
    && !EndsWith(key, "/")
    && !StartsWith(key, ".")
    && forall i :: 0 <= i < |key| - 1 ==> !(key[i] == '/' && key[i + 1] == '.')
  }

  /** The part of a key before its first slash, empty for a key without one. */
  function Folder(key: Key): string {
    if exists i :: 0 <= i < |key| && key[i] == '/' then UpToSlash(key) else ""
  }

  function UpToSlash(key: Key): string {
    if key == "" || key[0] == '/' then "" else [key[0]] + UpToSlash(key[1..])
  }

  const CURRENT_KINDS: set<string> := {"system", "howto", "decision", "reference", "trap"}

  const FOLDER_KINDS: map<string, set<string>> := map[
    "Areas" := {"system"},
    "Resources" := {"howto", "decision", "reference", "trap"},
    "Archive" := CURRENT_KINDS]

  function CheckWrite(c: Config, key: Key, data: Bytes): Option<Error> {
    if StartsWith(key, ".vault/") then Some(RefusedLayout)
    else if !Recorded(key) || !EndsWith(key, ".md") then None
    else if Folder(key) !in FOLDER_KINDS then Some(RefusedFolder)
    else
      var kind := c.kindOf(data);
      if kind.Some? && kind.value !in FOLDER_KINDS[Folder(key)] then Some(RefusedKind) else None
  }

  predicate ValidPath(c: Config, key: Key) {
    1 <= |c.names.utf8(key)| <= MAX_PATH_BYTES
  }

  function SealedName(c: Config, key: Key): string
    requires ValidPath(c, key)
  {
    ObjectKey(c.names, key).key
  }

  // ---- the operations, each as one step of the whole state ----

  function Kept(c: Config, blobs: map<Blob, Bytes>, data: Bytes): map<Blob, Bytes> {
    if c.blobId(data) in blobs then blobs else blobs[c.blobId(data) := data]
  }

  function KeptBoth(c: Config, blobs: map<Blob, Bytes>, before: Option<Bytes>, after: Option<Bytes>): map<Blob, Bytes> {
    var first := if before.Some? then Kept(c, blobs, before.value) else blobs;
    if after.Some? then Kept(c, first, after.value) else first
  }

  function BlobOf(c: Config, data: Option<Bytes>): Option<Blob> {
    if data.Some? then Some(c.blobId(data.value)) else None
  }

  function Noted(c: Config, s: Shared, actor: Actor, action: Action, path: Key, before: Option<Bytes>,
                 after: Option<Bytes>, src: Option<Key>): Shared
    requires ValidPath(c, path) && (src.Some? ==> ValidPath(c, src.value))
  {
    var row := Row(SealedName(c, path), if src.Some? then Some(SealedName(c, src.value)) else None, action, actor,
                   BlobOf(c, before), BlobOf(c, after), None);
    s.(blobs := KeptBoth(c, s.blobs, before, after), rows := s.rows + [row])
  }

  function Data(s: Shared, key: Key): Option<Bytes> {
    if key in s.files then Some(s.files[key].data) else None
  }

  predicate Meets(s: Shared, key: Key, expected: Expect) {
    match expected
    case Anything => true
    case Absent => key !in s.files
    case Exactly(version) => key in s.files && s.files[key].version == version
  }

  function Stored(s: Shared, key: Key, data: Bytes): Shared {
    s.(files := s.files[key := File(data, s.next)], next := s.next + 1)
  }

  function Put(c: Config, s: Shared, key: Key, data: Bytes, expected: Expect, actor: Actor): Outcome {
    var refusal := CheckWrite(c, key, data);
    if refusal.Some? then Failed(refusal.value)
    else if !ValidPath(c, key) then Failed(BadPath)
    else if !Meets(s, key, expected) then Failed(Conflict)
    else
      var before := Data(s, key);
      var stored := Stored(s, key, data);
      if !Recorded(key) || before == Some(data) then Done(stored)
      else Done(Noted(c, stored, actor, if before.None? then Created else Updated, key, before, Some(data), None))
  }

  function Dropped(c: Config, s: Shared, key: Key, actor: Actor): Shared
    requires ValidPath(c, key)
  {
    var gone := s.(files := s.files - {key});
    if Recorded(key) && key in s.files then Noted(c, gone, actor, Deleted, key, Data(s, key), None, None) else gone
  }

  function Delete(c: Config, s: Shared, key: Key, actor: Actor): Outcome {
    if !ValidPath(c, key) then Failed(BadPath)
    else if key !in s.files then Failed(NotFound)
    else Done(Dropped(c, s, key, actor))
  }

  function DeleteChecked(c: Config, s: Shared, key: Key, version: nat, actor: Actor): Outcome {
    if !ValidPath(c, key) then Failed(BadPath)
    else if !Meets(s, key, Exactly(version)) then Failed(Conflict)
    else Done(Dropped(c, s, key, actor))
  }

  /** A sealed move writes the target and then deletes the source. */
  function Move(c: Config, s: Shared, src: Key, dst: Key, actor: Actor): Outcome {
    if !ValidPath(c, src) then Failed(BadPath)
    else if src !in s.files then Failed(NotFound)
    else
      var data := s.files[src].data;
      var refusal := CheckWrite(c, dst, data);
      if refusal.Some? then Failed(refusal.value)
      else if EndsWith(src, "/") then Failed(IsFolder)
      else if !ValidPath(c, dst) then Failed(BadPath)
      else
        var stored := Stored(s, dst, data);
        var moved := stored.(files := stored.files - {src});
        if Recorded(src) || Recorded(dst)
        then Done(Noted(c, moved, actor, Moved, dst, Some(data), Some(data), Some(src)))
        else Done(moved)
  }

  /** The newest row of a path. */
  function Newest(rows: seq<Row>, path: string): Option<nat>
    ensures Newest(rows, path).Some? ==> Newest(rows, path).value < |rows|
  {
    if rows == [] then None
    else if rows[|rows| - 1].path == path then Some(|rows| - 1)
    else Newest(rows[..|rows| - 1], path)
  }

  function Marked(rows: seq<Row>, path: string, change: nat): seq<Row> {
    var newest := Newest(rows, path);
    if newest.None? then rows else rows[newest.value := rows[newest.value].(restoredFrom := Some(change))]
  }

  function Content(blobs: map<Blob, Bytes>, blob: Option<Blob>): Option<Bytes> {
    if blob.Some? && blob.value in blobs then Some(blobs[blob.value]) else None
  }

  const UNREADABLE := "(unreadable path)"

  function PathIn(c: Config, row: Row): Key {
    var path := PathOf(c.names, row.path);
    if path.None? || path.value == "" then UNREADABLE else path.value
  }

  predicate Restorable(row: Row) {
    (row.action.Updated? || row.action.Deleted?) && row.before.Some?
  }

  /** A put and the mark on its row, as a restore does them. */
  function PutAndMark(c: Config, s: Shared, path: Key, data: Bytes, change: nat, actor: Actor): Outcome {
    var put := Put(c, s, path, data, Anything, actor);
    if put.Done? && ValidPath(c, path)
    then Done(put.state.(rows := Marked(put.state.rows, SealedName(c, path), change))) else put
  }

  /** Puts a previous version back, unless the path already holds it. */
  function PutBack(c: Config, s: Shared, path: Key, data: Bytes, change: nat, actor: Actor): Outcome {
    if !ValidPath(c, path) then Failed(BadPath)
    else if Data(s, path) == Some(data) then Done(s)
    else PutAndMark(c, s, path, data, change, actor)
  }

  function Restore(c: Config, s: Shared, change: nat, actor: Actor): Outcome
    requires change < |s.rows|
  {
    var row := s.rows[change];
    var data := if Restorable(row) then Content(s.blobs, row.before) else None;
    if data.None? then Failed(NotFound) else PutBack(c, s, PathIn(c, row), data.value, change, actor)
  }

  function StripSlashes(key: Key): string {
    if EndsWith(key, "/") then StripSlashes(key[..|key| - 1]) else key
  }

  function MakeFolder(c: Config, s: Shared, key: Key): Outcome {
    var folder := StripSlashes(key) + "/";
    if ValidPath(c, folder) then Done(Stored(s, folder, [])) else Failed(BadPath)
  }

  // ---- what a call does to the files ----

  /** The condition of a conditional write or delete, on what the path holds. */
  predicate Expected(s: Shared, key: Key, expected: Expect) {
    && (expected.Absent? ==> key !in s.files)
    && (expected.Exactly? ==> key in s.files && s.files[key].version == expected.version)
  }

  /** One path holds the data in a version of its own, and no other path changed. */
  predicate HoldsNew(s: Shared, after: Shared, key: Key, data: Bytes) {
    && key in after.files && after.files[key].data == data && after.files[key].version >= s.next
    && after.next > after.files[key].version && after.files - {key} == s.files - {key}
  }

  /** A put succeeds exactly when the rules let the content in and the path meets the condition; it then holds the
      content. Over anything but what was expected it fails with a conflict. */
  lemma PutIsConditional(c: Config, s: Shared, key: Key, data: Bytes, expected: Expect, actor: Actor)
    ensures var put := Put(c, s, key, data, expected, actor);
      && (put.Done? <==> CheckWrite(c, key, data).None? && ValidPath(c, key) && Expected(s, key, expected))
      && (put.Done? ==> HoldsNew(s, put.state, key, data))
      && (!Expected(s, key, expected) && CheckWrite(c, key, data).None? && ValidPath(c, key) ==>
            put == Failed(Conflict))
  {
  }

  /** A delete takes away the path and nothing else; a checked one only from the version that was expected. */
  lemma DeleteIsConditional(c: Config, s: Shared, key: Key, version: nat, actor: Actor)
    requires ValidPath(c, key)
    ensures var deleted, checked := Delete(c, s, key, actor), DeleteChecked(c, s, key, version, actor);
      && (deleted.Done? <==> key in s.files)
      && (checked.Done? <==> key in s.files && s.files[key].version == version)
      && (deleted.Done? ==> deleted.state.files == s.files - {key} && deleted.state.next == s.next)
      && (checked.Done? ==> checked == deleted)
      && (checked.Failed? ==> checked == Failed(Conflict))
  {
  }

  /** A move succeeds exactly when there is a file to move and the rules let its content in where it goes; to another path
      it leaves the content of the source there, in a version of its own, and nothing else changed. */
  lemma MoveMoves(c: Config, s: Shared, src: Key, dst: Key, actor: Actor)
    ensures var move := Move(c, s, src, dst, actor);
      && (move.Done? <==>
            && src in s.files && ValidPath(c, src) && ValidPath(c, dst) && !EndsWith(src, "/")
            && CheckWrite(c, dst, s.files[src].data).None?)
      && (move.Done? && src != dst ==>
            && src !in move.state.files
            && HoldsNew(s.(files := s.files - {src}), move.state, dst, s.files[src].data))
  {
  }

  lemma SlashStripped(key: Key)
    ensures StripSlashes(key + "/") == StripSlashes(key)
  {
    assert (key + "/")[..|key|] == key;
  }

  lemma {:induction false} SlashesStripped(name: Key, slashes: Key)
    requires !EndsWith(name, "/") && forall i :: 0 <= i < |slashes| ==> slashes[i] == '/'
    ensures StripSlashes(name + slashes) == name
  {
    if slashes == [] {
      assert name + slashes == name;
    } else {
      var fewer := slashes[..|slashes| - 1];
      SlashesStripped(name, fewer);
      SlashStripped(name + fewer);
      assert slashes == fewer + "/" && name + slashes == name + fewer + "/";
    }
  }

  /** A folder is made under its name with one slash, however many it was given. */
  lemma FolderIsMade(c: Config, s: Shared, name: Key, slashes: Key)
    requires !EndsWith(name, "/") && forall i :: 0 <= i < |slashes| ==> slashes[i] == '/'
    ensures MakeFolder(c, s, name + slashes).Done? <==> ValidPath(c, name + "/")
    ensures ValidPath(c, name + "/") ==> HoldsNew(s, MakeFolder(c, s, name + slashes).state, name + "/", [])
  {
    SlashesStripped(name, slashes);
  }

  /** The valid paths are those that have an object name. */
  lemma ValidPathsHaveNames(c: Config, key: Key)
    ensures ValidPath(c, key) <==> ObjectKey(c.names, key).Name?
  {
  }

  // ---- what the rules let in ----

  /** A note in one of the three folders, of a kind that folder takes, or of none. */
  predicate InItsFolder(key: Key, kind: Option<string>) {
    || (StartsWith(key, "Areas/") && (kind.None? || kind.value == "system"))
    || (StartsWith(key, "Resources/") && (kind.None? || kind.value in {"howto", "decision", "reference", "trap"}))
    || (StartsWith(key, "Archive/") && (kind.None? || kind.value in {"system", "howto", "decision", "reference", "trap"}))
  }

  lemma {:induction false} UpToSlashIs(key: Key, name: string)
    requires '/' !in name
    ensures StartsWith(key, name + "/") ==> UpToSlash(key) == name
    ensures UpToSlash(key) == name && '/' in key ==> StartsWith(key, name + "/")
  {
    if key != "" && key[0] != '/' {
      if name != "" {
        UpToSlashIs(key[1..], name[1..]);
        assert name + "/" == [name[0]] + (name[1..] + "/") && key == [key[0]] + key[1..];
      }
    } else if key != "" {
      assert key[..1] == "/";
    }
  }

  lemma FolderIs(key: Key, name: string)
    requires '/' !in name && name != ""
    ensures Folder(key) == name <==> StartsWith(key, name + "/")
  {
    UpToSlashIs(key, name);
    if StartsWith(key, name + "/") {
      assert key[|name|] == '/';
    }
  }

  /** The rules refuse the layout, and of the recorded notes exactly those outside their folders. */
  lemma RulesLetInExactly(c: Config, key: Key, data: Bytes)
    ensures CheckWrite(c, key, data).None? <==>
            && !StartsWith(key, ".vault/")
            && (Recorded(key) && EndsWith(key, ".md") ==> InItsFolder(key, c.kindOf(data)))
  {
    FoldersTake(key, c.kindOf(data));
  }

  lemma FoldersTake(key: Key, kind: Option<string>)
    ensures Folder(key) in FOLDER_KINDS && (kind.Some? ==> kind.value in FOLDER_KINDS[Folder(key)]) <==>
            InItsFolder(key, kind)
  {
    FolderIs(key, "Areas");
    FolderIs(key, "Resources");
    FolderIs(key, "Archive");
  }

  predicate DotAfterSlash(key: Key) {
    exists i :: 0 <= i < |key| - 1 && key[i] == '/' && key[i + 1] == '.'
  }

  predicate HiddenIn(segments: seq<string>) {
    exists i :: 0 <= i < |segments| && NoteKeys.Hidden(segments[i])
  }

  /** A path is recorded exactly when it is no folder and no segment of it is hidden. */
  lemma RecordedBySegments(key: Key)
    ensures Recorded(key) <==> !EndsWith(key, "/") && !NoteKeys.SomeHidden(key)
  {
    var segments := NoteKeys.Split(key);
    HiddenBySegments(key);
    FirstHidden(segments);
    assert NoteKeys.SomeHidden(key) <==> HiddenIn(segments);
  }

  lemma FirstHidden(segments: seq<string>)
    requires segments != []
    ensures HiddenIn(segments) <==> NoteKeys.Hidden(segments[0]) || HiddenIn(segments[1..])
  {
    if i :| 0 <= i < |segments| && NoteKeys.Hidden(segments[i]) && i > 0 {
      assert segments[1..][i - 1] == segments[i];
    }
  }

  lemma FirstDot(key: Key)
    requires key != ""
    ensures DotAfterSlash(key) <==> (|key| >= 2 && key[0] == '/' && key[1] == '.') || DotAfterSlash(key[1..])
  {
    if i :| 0 <= i < |key| - 1 && key[i] == '/' && key[i + 1] == '.' && i > 0 {
      assert key[1..][i - 1] == '/' && key[1..][i] == '.';
    }
  }

  lemma {:induction false} HiddenBySegments(key: Key)
    ensures NoteKeys.Hidden(NoteKeys.Split(key)[0]) <==> StartsWith(key, ".")
    ensures HiddenIn(NoteKeys.Split(key)[1..]) <==> DotAfterSlash(key)
  {
    if key != "" {
      var rest := NoteKeys.Split(key[1..]);
      HiddenBySegments(key[1..]);
      FirstDot(key);
      FirstHidden(rest);
      assert NoteKeys.Split(key)[1..] == if key[0] == '/' then rest else rest[1..];
    }
  }

  // ---- replay ----

  /** A row as a reader sees it. */
  datatype Change = Change(path: Key, src: Option<Key>, action: Action, before: Option<Bytes>, after: Option<Bytes>)

  function ChangeOf(c: Config, blobs: map<Blob, Bytes>, row: Row): Change {
    Change(PathIn(c, row), if row.src.Some? then PathOf(c.names, row.src.value) else None, row.action,
           Content(blobs, row.before), Content(blobs, row.after))
  }

  /** What a change does to the contents of the recorded paths. */
  function Apply(now: map<Key, Bytes>, change: Change): map<Key, Bytes> {
    var left := if change.src.Some? then now - {change.src.value} else now;
    if change.action.Deleted? then left - {change.path}
    else if Recorded(change.path) && change.after.Some? then left[change.path := change.after.value]
    else left
  }

  function Replay(c: Config, start: map<Key, Bytes>, blobs: map<Blob, Bytes>, rows: seq<Row>): map<Key, Bytes> {
    if rows == [] then start
    else Apply(Replay(c, start, blobs, rows[..|rows| - 1]), ChangeOf(c, blobs, rows[|rows| - 1]))
  }

  /** The recorded part of what is stored. */
  function RecordedPart(files: map<Key, File>): map<Key, Bytes> {
    map key | key in files && Recorded(key) :: files[key].data
  }

  // ---- the invariant ----

  /** A change fits the contents it was made on: its `before` is what the path held. */
  predicate Fits(c: Config, now: map<Key, Bytes>, change: Change) {
    && ValidPath(c, change.path)
    && (Recorded(change.path) && change.after.Some? ==> CheckWrite(c, change.path, change.after.value).None?)
    && match change.action
       case Created => Recorded(change.path) && change.path !in now && change.before.None? && change.after.Some?
       case Updated => Recorded(change.path) && change.path in now && change.before == Some(now[change.path])
                       && change.after.Some? && change.after != change.before
       case Deleted => Recorded(change.path) && change.path in now && change.before == Some(now[change.path])
                       && change.after.None?
       case Moved => change.src.Some? && change.after.Some? && change.before == change.after
                     && (Recorded(change.src.value) ==>
                           change.src.value in now && Some(now[change.src.value]) == change.after)
  }

  predicate Explained(c: Config, start: map<Key, Bytes>, blobs: map<Blob, Bytes>, rows: seq<Row>) {
    forall i :: 0 <= i < |rows| ==> FitsAt(c, start, blobs, rows, i)
  }

  predicate FitsAt(c: Config, start: map<Key, Bytes>, blobs: map<Blob, Bytes>, rows: seq<Row>, i: nat)
    requires i < |rows|
  {
    Fits(c, Replay(c, start, blobs, rows[..i]), ChangeOf(c, blobs, rows[i]))
  }

  /** Every path and every content that a row names can be read. */
  predicate Readable(c: Config, blobs: map<Blob, Bytes>, row: Row) {
    && ValidPath(c, PathIn(c, row)) && row.path == SealedName(c, PathIn(c, row))
    && (row.before.Some? ==> row.before.value in blobs)
    && (row.after.Some? ==> row.after.value in blobs)
  }

  predicate Permitted(c: Config, notes: map<Key, Bytes>) {
    forall key :: key in notes ==> Recorded(key) && ValidPath(c, key) && CheckWrite(c, key, notes[key]).None?
  }

  predicate Named(c: Config, blobs: map<Blob, Bytes>) {
    forall blob :: blob in blobs ==> c.blobId(blobs[blob]) == blob
  }

  /** Rows that can be read and that each fit what the ones before left. */
  predicate Ledger(c: Config, start: map<Key, Bytes>, blobs: map<Blob, Bytes>, rows: seq<Row>) {
    && Named(c, blobs)
    && (forall i :: 0 <= i < |rows| ==> Readable(c, blobs, rows[i]))
    && Explained(c, start, blobs, rows)
  }

  /** A vault whose rows explain what it holds, from what it held when its history began. */
  predicate Coherent(c: Config, start: map<Key, Bytes>, s: Shared) {
    && Ledger(c, start, s.blobs, s.rows)
    && Replay(c, start, s.blobs, s.rows) == RecordedPart(s.files)
  }

  // ---- rows stay readable, and the past is not changed ----

  predicate Grown(blobs: map<Blob, Bytes>, more: map<Blob, Bytes>) {
    forall blob :: blob in blobs ==> blob in more && more[blob] == blobs[blob]
  }

  lemma KeepingOne(c: Config, blobs: map<Blob, Bytes>, data: Bytes)
    requires Sound(c) && Named(c, blobs)
    ensures var more := Kept(c, blobs, data);
      && Grown(blobs, more) && Named(c, more) && c.blobId(data) in more && more[c.blobId(data)] == data
  {
  }

  lemma KeepingGrows(c: Config, blobs: map<Blob, Bytes>, before: Option<Bytes>, after: Option<Bytes>)
    requires Sound(c) && Named(c, blobs)
    ensures var more := KeptBoth(c, blobs, before, after);
      && Grown(blobs, more) && Named(c, more)
      && Content(more, BlobOf(c, before)) == before && Content(more, BlobOf(c, after)) == after
      && (before.Some? ==> c.blobId(before.value) in more) && (after.Some? ==> c.blobId(after.value) in more)
  {
    var first := if before.Some? then Kept(c, blobs, before.value) else blobs;
    if before.Some? {
      KeepingOne(c, blobs, before.value);
    }
    if after.Some? {
      KeepingOne(c, first, after.value);
    }
  }

  lemma {:induction false} PastIsKept(c: Config, start: map<Key, Bytes>, blobs: map<Blob, Bytes>,
                                      more: map<Blob, Bytes>, rows: seq<Row>)
    requires Grown(blobs, more) && forall i :: 0 <= i < |rows| ==> Readable(c, blobs, rows[i])
    ensures Replay(c, start, more, rows) == Replay(c, start, blobs, rows)
    ensures forall i :: 0 <= i < |rows| ==> Readable(c, more, rows[i])
    ensures forall i :: 0 <= i < |rows| ==> ChangeOf(c, more, rows[i]) == ChangeOf(c, blobs, rows[i])
  {
    if rows != [] {
      var n := |rows| - 1;
      PastIsKept(c, start, blobs, more, rows[..n]);
      assert Readable(c, blobs, rows[n]);
      assert ChangeOf(c, more, rows[n]) == ChangeOf(c, blobs, rows[n]);
    }
  }

  lemma FitsStill(c: Config, start: map<Key, Bytes>, blobs: map<Blob, Bytes>, more: map<Blob, Bytes>, rows: seq<Row>,
                  longer: seq<Row>, i: nat)
    requires Ledger(c, start, blobs, rows) && Grown(blobs, more) && i < |rows| && rows <= longer
    ensures FitsAt(c, start, more, longer, i)
  {
    PastIsKept(c, start, blobs, more, rows[..i + 1]);
    PastIsKept(c, start, blobs, more, rows[..i]);
    assert FitsAt(c, start, blobs, rows, i);
    assert longer[..i] == rows[..i] && rows[..i + 1][i] == rows[i];
  }

  /** The row a recording adds reads back as the change it was made from. */
  lemma RowReadsBack(c: Config, blobs: map<Blob, Bytes>, row: Row, path: Key, src: Option<Key>)
    requires Sound(c) && ValidPath(c, path) && (src.Some? ==> ValidPath(c, src.value))
    requires row.path == SealedName(c, path)
    requires row.src == if src.Some? then Some(SealedName(c, src.value)) else None
    ensures PathIn(c, row) == path && ChangeOf(c, blobs, row).path == path && ChangeOf(c, blobs, row).src == src
  {
    PathRoundTrip(c.names, path);
    if src.Some? {
      PathRoundTrip(c.names, src.value);
    }
  }

  lemma RowAdded(c: Config, start: map<Key, Bytes>, blobs: map<Blob, Bytes>, more: map<Blob, Bytes>, rows: seq<Row>,
                 row: Row)
    requires Ledger(c, start, blobs, rows) && Grown(blobs, more) && Named(c, more) && Readable(c, more, row)
    requires Fits(c, Replay(c, start, blobs, rows), ChangeOf(c, more, row))
    ensures Ledger(c, start, more, rows + [row])
    ensures Replay(c, start, more, rows + [row]) == Apply(Replay(c, start, blobs, rows), ChangeOf(c, more, row))
  {
    PastIsKept(c, start, blobs, more, rows);
    assert (rows + [row])[..|rows|] == rows;
    AddedExplained(c, start, blobs, more, rows, row);
  }

  lemma AddedExplained(c: Config, start: map<Key, Bytes>, blobs: map<Blob, Bytes>, more: map<Blob, Bytes>,
                       rows: seq<Row>, row: Row)
    requires Ledger(c, start, blobs, rows) && Grown(blobs, more)
    requires Fits(c, Replay(c, start, more, rows), ChangeOf(c, more, row))
    ensures Explained(c, start, more, rows + [row])
  {
    var all := rows + [row];
    assert all[..|rows|] == rows && all[|rows|] == row;
    forall i | 0 <= i < |all| ensures FitsAt(c, start, more, all, i) {
      if i < |rows| {
        FitsStill(c, start, blobs, more, rows, all, i);
      }
    }
  }

  /** The row a recording adds is readable, and says what was recorded. */
  lemma NotedRow(c: Config, s: Shared, actor: Actor, change: Change)
    requires Sound(c) && Named(c, s.blobs)
    requires ValidPath(c, change.path) && (change.src.Some? ==> ValidPath(c, change.src.value))
    ensures var after := Noted(c, s, actor, change.action, change.path, change.before, change.after, change.src);
      && after.rows == s.rows + [after.rows[|s.rows|]]
      && Readable(c, after.blobs, after.rows[|s.rows|])
      && ChangeOf(c, after.blobs, after.rows[|s.rows|]) == change
      && Grown(s.blobs, after.blobs) && Named(c, after.blobs)
      && after.files == s.files
  {
    var after := Noted(c, s, actor, change.action, change.path, change.before, change.after, change.src);
    KeepingGrows(c, s.blobs, change.before, change.after);
    RowReadsBack(c, after.blobs, after.rows[|s.rows|], change.path, change.src);
  }

  /** Recording a change that fits: the rows then replay to the old contents with the change applied. */
  lemma RecordingReplays(c: Config, start: map<Key, Bytes>, s: Shared, actor: Actor, change: Change)
    requires Sound(c) && Ledger(c, start, s.blobs, s.rows)
    requires ValidPath(c, change.path) && (change.src.Some? ==> ValidPath(c, change.src.value))
    requires Fits(c, Replay(c, start, s.blobs, s.rows), change)
    ensures var after := Noted(c, s, actor, change.action, change.path, change.before, change.after, change.src);
      && Ledger(c, start, after.blobs, after.rows) && after.files == s.files
      && Replay(c, start, after.blobs, after.rows) == Apply(Replay(c, start, s.blobs, s.rows), change)
  {
    var after := Noted(c, s, actor, change.action, change.path, change.before, change.after, change.src);
    NotedRow(c, s, actor, change);
    RowAdded(c, start, s.blobs, after.blobs, s.rows, after.rows[|s.rows|]);
  }

  lemma StoredPart(files: map<Key, File>, key: Key, file: File)
    ensures RecordedPart(files[key := file]) ==
            if Recorded(key) then RecordedPart(files)[key := file.data] else RecordedPart(files)
    ensures RecordedPart(files - {key}) == RecordedPart(files) - {key}
  {
  }

  lemma PutKeeps(c: Config, start: map<Key, Bytes>, s: Shared, key: Key, data: Bytes, expected: Expect, actor: Actor)
    requires Sound(c) && Coherent(c, start, s)
    requires Put(c, s, key, data, expected, actor).Done?
    ensures Coherent(c, start, Put(c, s, key, data, expected, actor).state)
  {
    var stored := Stored(s, key, data);
    StoredPart(s.files, key, File(data, s.next));
    if Recorded(key) && Data(s, key) != Some(data) {
      var action := if key in s.files then Updated else Created;
      RecordingReplays(c, start, stored, actor, Change(key, None, action, Data(s, key), Some(data)));
    } else if Recorded(key) {
      assert RecordedPart(s.files)[key] == data;
    }
  }

  lemma DropKeeps(c: Config, start: map<Key, Bytes>, s: Shared, key: Key, actor: Actor)
    requires Sound(c) && Coherent(c, start, s) && ValidPath(c, key)
    ensures Coherent(c, start, Dropped(c, s, key, actor))
  {
    if key in s.files {
      StoredPart(s.files, key, s.files[key]);
      if Recorded(key) {
        var gone := s.(files := s.files - {key});
        RecordingReplays(c, start, gone, actor, Change(key, None, Deleted, Data(s, key), None));
      } else {
        assert RecordedPart(s.files) - {key} == RecordedPart(s.files);
      }
    } else {
      assert s.files - {key} == s.files;
    }
  }

  function MoveChange(s: Shared, src: Key, dst: Key): Change
    requires src in s.files
  {
    Change(dst, Some(src), Moved, Some(s.files[src].data), Some(s.files[src].data))
  }

  lemma MoveFits(c: Config, s: Shared, src: Key, dst: Key, actor: Actor)
    requires Move(c, s, src, dst, actor).Done?
    ensures Fits(c, RecordedPart(s.files), MoveChange(s, src, dst)) && ValidPath(c, src)
  {
    if Recorded(src) {
      assert RecordedPart(s.files)[src] == s.files[src].data;
    }
  }

  function MovedFiles(s: Shared, src: Key, dst: Key): map<Key, File>
    requires src in s.files
  {
    Stored(s, dst, s.files[src].data).files - {src}
  }

  lemma MovedPart(s: Shared, src: Key, dst: Key)
    requires src in s.files
    ensures RecordedPart(MovedFiles(s, src, dst)) ==
            (if Recorded(dst) then RecordedPart(s.files)[dst := s.files[src].data] else RecordedPart(s.files)) - {src}
  {
    var file := File(s.files[src].data, s.next);
    StoredPart(s.files, dst, file);
    StoredPart(s.files[dst := file], src, file);
  }

  lemma MovedApart(s: Shared, src: Key, dst: Key)
    requires src in s.files && src != dst
    ensures RecordedPart(MovedFiles(s, src, dst)) == Apply(RecordedPart(s.files), MoveChange(s, src, dst))
  {
    MovedPart(s, src, dst);
    var part, data := RecordedPart(s.files), s.files[src].data;
    assert part[dst := data] - {src} == (part - {src})[dst := data];
  }

  lemma MovedOntoItself(s: Shared, src: Key)
    requires src in s.files && Recorded(src)
    ensures RecordedPart(MovedFiles(s, src, src)) != Apply(RecordedPart(s.files), MoveChange(s, src, src))
  {
    MovedPart(s, src, src);
    assert src !in RecordedPart(MovedFiles(s, src, src));
    assert src in Apply(RecordedPart(s.files), MoveChange(s, src, src));
  }

  lemma MovedUnseen(s: Shared, src: Key, dst: Key)
    requires src in s.files && !Recorded(src) && !Recorded(dst)
    ensures RecordedPart(MovedFiles(s, src, dst)) == RecordedPart(s.files)
  {
    MovedPart(s, src, dst);
    assert RecordedPart(s.files) - {src} == RecordedPart(s.files);
  }

  /** A move is recorded truthfully exactly when the two paths differ: onto itself it deletes what the rows keep. */
  lemma MoveKeepsExactlyWhenApart(c: Config, start: map<Key, Bytes>, s: Shared, src: Key, dst: Key, actor: Actor)
    requires Sound(c) && Coherent(c, start, s)
    requires Move(c, s, src, dst, actor).Done?
    ensures Coherent(c, start, Move(c, s, src, dst, actor).state) <==> src != dst || !Recorded(src)
  {
    MoveFits(c, s, src, dst, actor);
    if Recorded(src) || Recorded(dst) {
      var stored := Stored(s, dst, s.files[src].data);
      var moved := stored.(files := stored.files - {src});
      RecordingReplays(c, start, moved, actor, MoveChange(s, src, dst));
      if src != dst {
        MovedApart(s, src, dst);
      } else {
        MovedOntoItself(s, src);
      }
    } else {
      MovedUnseen(s, src, dst);
    }
  }

  // ---- restoring ----

  lemma ChangeIsPermitted(c: Config, now: map<Key, Bytes>, change: Change)
    requires Permitted(c, now) && Fits(c, now, change)
    ensures Permitted(c, Apply(now, change))
  {
  }

  lemma ExplainedBefore(c: Config, start: map<Key, Bytes>, blobs: map<Blob, Bytes>, rows: seq<Row>, n: nat)
    requires Explained(c, start, blobs, rows) && n <= |rows|
    ensures Explained(c, start, blobs, rows[..n])
  {
    forall i | 0 <= i < n ensures FitsAt(c, start, blobs, rows[..n], i) {
      assert FitsAt(c, start, blobs, rows, i) && rows[..n][..i] == rows[..i];
    }
  }

  /** At no point of the history did a recorded path hold what the rules of the vault refuse. */
  lemma {:induction false} PastIsPermitted(c: Config, start: map<Key, Bytes>, blobs: map<Blob, Bytes>, rows: seq<Row>)
    requires Permitted(c, start) && Explained(c, start, blobs, rows)
    ensures Permitted(c, Replay(c, start, blobs, rows))
  {
    if rows != [] {
      var n := |rows| - 1;
      ExplainedBefore(c, start, blobs, rows, n);
      PastIsPermitted(c, start, blobs, rows[..n]);
      assert FitsAt(c, start, blobs, rows, n);
      ChangeIsPermitted(c, Replay(c, start, blobs, rows[..n]), ChangeOf(c, blobs, rows[n]));
    }
  }

  lemma MarkedLast(rows: seq<Row>, row: Row, change: nat)
    ensures Marked(rows + [row], row.path, change) == rows + [row.(restoredFrom := Some(change))]
  {
  }

  lemma MarkingKeeps(c: Config, start: map<Key, Bytes>, blobs: map<Blob, Bytes>, rows: seq<Row>, row: Row, change: nat)
    requires Ledger(c, start, blobs, rows + [row])
    ensures Ledger(c, start, blobs, rows + [row.(restoredFrom := Some(change))])
    ensures Replay(c, start, blobs, rows + [row.(restoredFrom := Some(change))]) ==
            Replay(c, start, blobs, rows + [row])
  {
    var was, marked := rows + [row], row.(restoredFrom := Some(change));
    assert was[..|rows|] == rows && (rows + [marked])[..|rows|] == rows;
    assert ChangeOf(c, blobs, marked) == ChangeOf(c, blobs, row);
    forall i | 0 <= i < |rows| + 1
      ensures Readable(c, blobs, (rows + [marked])[i]) && FitsAt(c, start, blobs, rows + [marked], i)
    {
      assert Readable(c, blobs, was[i]) && FitsAt(c, start, blobs, was, i) && was[..i] == (rows + [marked])[..i];
    }
  }

  /** What a row with a previous version kept is what replaying the rows before it gives. */
  lemma PreviousIsReplayed(c: Config, start: map<Key, Bytes>, s: Shared, change: nat)
    requires Coherent(c, start, s) && change < |s.rows|
    requires s.rows[change].action.Updated? || s.rows[change].action.Deleted?
    ensures var path, past := PathIn(c, s.rows[change]), Replay(c, start, s.blobs, s.rows[..change]);
      && Restorable(s.rows[change]) && ValidPath(c, path) && Recorded(path)
      && path in past && Content(s.blobs, s.rows[change].before) == Some(past[path])
  {
    assert FitsAt(c, start, s.blobs, s.rows, change) && Readable(c, s.blobs, s.rows[change]);
  }

  /** The previous version of any row is still one the rules let in. */
  lemma PreviousIsPermitted(c: Config, start: map<Key, Bytes>, s: Shared, change: nat)
    requires Coherent(c, start, s) && Permitted(c, start) && change < |s.rows|
    requires s.rows[change].action.Updated? || s.rows[change].action.Deleted?
    ensures var path, past := PathIn(c, s.rows[change]), Replay(c, start, s.blobs, s.rows[..change]);
      path in past && CheckWrite(c, path, past[path]).None?
  {
    PreviousIsReplayed(c, start, s, change);
    ExplainedBefore(c, start, s.blobs, s.rows, change);
    PastIsPermitted(c, start, s.blobs, s.rows[..change]);
  }

  /** The one row that a restore adds, or none when the path already holds that version. */
  predicate RestoreRow(c: Config, s: Shared, after: Shared, path: Key, data: Bytes, change: nat, actor: Actor) {
    if Data(s, path) == Some(data) then after == s
    else
      && |after.rows| == |s.rows| + 1 && after.rows[..|s.rows|] == s.rows
      && after.rows[|s.rows|].author == actor && after.rows[|s.rows|].restoredFrom == Some(change)
      && ChangeOf(c, after.blobs, after.rows[|s.rows|]) ==
           Change(path, None, if path in s.files then Updated else Created, Data(s, path), Some(data))
  }

  lemma PutRow(c: Config, s: Shared, key: Key, data: Bytes, actor: Actor)
    requires Sound(c) && Named(c, s.blobs) && Recorded(key) && ValidPath(c, key)
    requires CheckWrite(c, key, data).None? && Data(s, key) != Some(data)
    ensures var put := Put(c, s, key, data, Anything, actor);
      && put.Done? && |put.state.rows| == |s.rows| + 1 && put.state.rows[..|s.rows|] == s.rows
      && put.state.rows == s.rows + [put.state.rows[|s.rows|]]
      && put.state.rows[|s.rows|].author == actor && put.state.rows[|s.rows|].path == SealedName(c, key)
      && put.state.files == s.files[key := File(data, s.next)]
      && ChangeOf(c, put.state.blobs, put.state.rows[|s.rows|]) ==
           Change(key, None, if key in s.files then Updated else Created, Data(s, key), Some(data))
  {
    var change := Change(key, None, if key in s.files then Updated else Created, Data(s, key), Some(data));
    NotedRow(c, Stored(s, key, data), actor, change);
  }

  /** The path holds the data, no other path changed, and the rows say so. */
  predicate BroughtBack(c: Config, start: map<Key, Bytes>, s: Shared, after: Shared, path: Key, data: Bytes, change: nat,
                        actor: Actor) {
    && Data(after, path) == Some(data)
    && after.files - {path} == s.files - {path}
    && RestoreRow(c, s, after, path, data, change, actor)
    && Coherent(c, start, after)
  }

  lemma PutAndMarkRow(c: Config, s: Shared, path: Key, data: Bytes, change: nat, actor: Actor)
    requires Sound(c) && Named(c, s.blobs) && Recorded(path) && ValidPath(c, path)
    requires CheckWrite(c, path, data).None? && Data(s, path) != Some(data)
    ensures var outcome := PutAndMark(c, s, path, data, change, actor);
      && outcome.Done? && outcome.state.files == s.files[path := File(data, s.next)]
      && RestoreRow(c, s, outcome.state, path, data, change, actor)
  {
    PutRow(c, s, path, data, actor);
    var put := Put(c, s, path, data, Anything, actor).state;
    var added := put.rows[|s.rows|];
    MarkedLast(s.rows, added, change);
    assert ChangeOf(c, put.blobs, added.(restoredFrom := Some(change))) == ChangeOf(c, put.blobs, added);
  }

  lemma PutAndMarkKeeps(c: Config, start: map<Key, Bytes>, s: Shared, path: Key, data: Bytes, change: nat, actor: Actor)
    requires Sound(c) && Coherent(c, start, s) && Recorded(path) && ValidPath(c, path)
    requires CheckWrite(c, path, data).None? && Data(s, path) != Some(data)
    ensures PutAndMark(c, s, path, data, change, actor).Done?
    ensures Coherent(c, start, PutAndMark(c, s, path, data, change, actor).state)
  {
    PutRow(c, s, path, data, actor);
    PutKeeps(c, start, s, path, data, Anything, actor);
    var put := Put(c, s, path, data, Anything, actor).state;
    var added := put.rows[|s.rows|];
    MarkedLast(s.rows, added, change);
    MarkingKeeps(c, start, put.blobs, s.rows, added, change);
  }

  lemma PuttingBringsBack(c: Config, start: map<Key, Bytes>, s: Shared, path: Key, data: Bytes, change: nat,
                          actor: Actor)
    requires Sound(c) && Coherent(c, start, s)
    requires ValidPath(c, path) && Recorded(path) && CheckWrite(c, path, data).None? && Data(s, path) != Some(data)
    ensures var outcome := PutAndMark(c, s, path, data, change, actor);
      outcome.Done? && BroughtBack(c, start, s, outcome.state, path, data, change, actor)
  {
    PutAndMarkRow(c, s, path, data, change, actor);
    PutAndMarkKeeps(c, start, s, path, data, change, actor);
  }

  lemma PuttingBack(c: Config, start: map<Key, Bytes>, s: Shared, path: Key, data: Bytes, change: nat, actor: Actor)
    requires Sound(c) && Coherent(c, start, s)
    requires ValidPath(c, path) && Recorded(path) && CheckWrite(c, path, data).None?
    ensures PutBack(c, s, path, data, change, actor).Done?
    ensures BroughtBack(c, start, s, PutBack(c, s, path, data, change, actor).state, path, data, change, actor)
  {
    if Data(s, path) != Some(data) {
      PuttingBringsBack(c, start, s, path, data, change, actor);
    }
  }

  /** Restoring an updated or deleted change is never refused: its path then holds what the rows before that change
      replay to, nothing else moves, and the history gains at most the one row that says so. */
  lemma RestoreBringsBack(c: Config, start: map<Key, Bytes>, s: Shared, change: nat, actor: Actor)
    requires Sound(c) && Coherent(c, start, s) && Permitted(c, start) && change < |s.rows|
    ensures Restore(c, s, change, actor).Done? <==> s.rows[change].action.Updated? || s.rows[change].action.Deleted?
    ensures Restore(c, s, change, actor).Done? ==>
      var path, past := PathIn(c, s.rows[change]), Replay(c, start, s.blobs, s.rows[..change]);
      path in past && BroughtBack(c, start, s, Restore(c, s, change, actor).state, path, past[path], change, actor)
  {
    if s.rows[change].action.Updated? || s.rows[change].action.Deleted? {
      PreviousIsReplayed(c, start, s, change);
      PreviousIsPermitted(c, start, s, change);
      var path, past := PathIn(c, s.rows[change]), Replay(c, start, s.blobs, s.rows[..change]);
      PuttingBack(c, start, s, path, past[path], change, actor);
    }
  }

  // ---- whole runs ----

  datatype Event =
    | PutIn(key: Key, data: Bytes, expected: Expect, actor: Actor)
    | DeleteOf(key: Key, actor: Actor)
    | CheckedDeleteOf(key: Key, version: nat, actor: Actor)
    | MoveTo(src: Key, dst: Key, actor: Actor)
    | FolderAt(key: Key, actor: Actor)
    | RestoreOf(change: nat, actor: Actor)

  function Call(c: Config, s: Shared, e: Event): Outcome {
    match e
    case PutIn(key, data, expected, actor) => Put(c, s, key, data, expected, actor)
    case DeleteOf(key, actor) => Delete(c, s, key, actor)
    case CheckedDeleteOf(key, version, actor) => DeleteChecked(c, s, key, version, actor)
    case MoveTo(src, dst, actor) => Move(c, s, src, dst, actor)
    case FolderAt(key, _) => MakeFolder(c, s, key)
    case RestoreOf(change, actor) => if change < |s.rows| then Restore(c, s, change, actor) else Failed(NotFound)
  }

  /** A call that fails changes nothing. */
  function Next(c: Config, s: Shared, e: Event): Shared {
    var outcome := Call(c, s, e);
    if outcome.Done? then outcome.state else s
  }

  datatype Trace = First(state: Shared) | More(before: Trace, event: Event, state: Shared)

  /** Calls one after the other, none of them a move of a path onto itself, from when the history began. */
  predicate Run(c: Config, t: Trace) {
    match t
    case First(s) => s.rows == [] && Named(c, s.blobs) && Permitted(c, RecordedPart(s.files)) && Versioned(s)
    case More(before, e, s) => Run(c, before) && s == Next(c, before.state, e) && (e.MoveTo? ==> e.src != e.dst)
  }

  function Start(t: Trace): map<Key, Bytes> {
    if t.First? then RecordedPart(t.state.files) else Start(t.before)
  }

  lemma StepKeeps(c: Config, start: map<Key, Bytes>, s: Shared, e: Event)
    requires Sound(c) && Coherent(c, start, s) && Permitted(c, start) && (e.MoveTo? ==> e.src != e.dst)
    ensures Coherent(c, start, Next(c, s, e))
  {
    if Call(c, s, e).Done? {
      match e
      case PutIn(key, data, expected, actor) => PutKeeps(c, start, s, key, data, expected, actor);
      case DeleteOf(key, actor) => DropKeeps(c, start, s, key, actor);
      case CheckedDeleteOf(key, version, actor) => DropKeeps(c, start, s, key, actor);
      case MoveTo(src, dst, actor) => MoveKeepsExactlyWhenApart(c, start, s, src, dst, actor);
      case FolderAt(key, _) => StoredPart(s.files, StripSlashes(key) + "/", File([], s.next));
      case RestoreOf(change, actor) => RestoreBringsBack(c, start, s, change, actor);
    }
  }

  // ---- versions ----

  /** Every version stored has been given out. */
  predicate Versioned(s: Shared) {
    forall key :: key in s.files ==> s.files[key].version < s.next
  }

  /** Whatever is stored anew has a version that was not given out before. */
  predicate GivesNew(s: Shared, after: Shared) {
    && s.next <= after.next && Versioned(after)
    && forall key :: key in after.files ==>
         (key in s.files && after.files[key] == s.files[key]) || after.files[key].version >= s.next
  }

  lemma HoldsGivesNew(s: Shared, after: Shared, key: Key, data: Bytes)
    requires Versioned(s) && HoldsNew(s, after, key, data)
    ensures GivesNew(s, after)
  {
    forall k | k in after.files && k != key ensures k in s.files && after.files[k] == s.files[k] {
      assert k in after.files - {key};
    }
  }

  lemma MoveGivesNew(c: Config, s: Shared, src: Key, dst: Key, actor: Actor)
    requires Versioned(s) && Move(c, s, src, dst, actor).Done?
    ensures GivesNew(s, Move(c, s, src, dst, actor).state)
  {
    var after := Move(c, s, src, dst, actor).state;
    assert after.files == s.files[dst := File(s.files[src].data, s.next)] - {src};
  }

  lemma RestoreGivesNew(c: Config, s: Shared, change: nat, actor: Actor)
    requires Versioned(s) && change < |s.rows| && Restore(c, s, change, actor).Done?
    ensures GivesNew(s, Restore(c, s, change, actor).state)
  {
    var after, path := Restore(c, s, change, actor).state, PathIn(c, s.rows[change]);
    if after != s {
      var data := Content(s.blobs, s.rows[change].before).value;
      PutIsConditional(c, s, path, data, Anything, actor);
      HoldsGivesNew(s, Put(c, s, path, data, Anything, actor).state, path, data);
    }
  }

  lemma StepGivesNew(c: Config, s: Shared, e: Event)
    requires Versioned(s)
    ensures GivesNew(s, Next(c, s, e))
  {
    if Call(c, s, e).Done? {
      match e
      case PutIn(key, data, expected, actor) =>
        PutIsConditional(c, s, key, data, expected, actor);
        HoldsGivesNew(s, Put(c, s, key, data, expected, actor).state, key, data);
      case DeleteOf(key, actor) => DeleteIsConditional(c, s, key, 0, actor);
      case CheckedDeleteOf(key, version, actor) => DeleteIsConditional(c, s, key, version, actor);
      case MoveTo(src, dst, actor) => MoveGivesNew(c, s, src, dst, actor);
      case FolderAt(key, _) => HoldsGivesNew(s, MakeFolder(c, s, key).state, StripSlashes(key) + "/", []);
      case RestoreOf(change, actor) => RestoreGivesNew(c, s, change, actor);
    }
  }

  /** An earlier moment of a run. */
  predicate Within(p: Trace, t: Trace) {
    p == t || (t.More? && Within(p, t.before))
  }

  lemma {:induction false} AlwaysVersioned(c: Config, p: Trace, t: Trace)
    requires Run(c, t) && Within(p, t)
    ensures Run(c, p) && Versioned(p.state) && Versioned(t.state) && p.state.next <= t.state.next
  {
    if t.More? {
      AlwaysVersioned(c, if p == t then t.before else p, t.before);
      StepGivesNew(c, t.before.state, t.event);
    }
  }

  /** A version that a path had given out by some moment, and has later, it has had ever since, with one content. */
  lemma {:induction false} VersionNamesOneContent(c: Config, p: Trace, t: Trace, key: Key)
    requires Run(c, t) && Within(p, t) && key in t.state.files && t.state.files[key].version < p.state.next
    ensures key in p.state.files && p.state.files[key] == t.state.files[key]
  {
    if p != t {
      AlwaysVersioned(c, p, t.before);
      StepGivesNew(c, t.before.state, t.event);
      VersionNamesOneContent(c, p, t.before, key);
    }
  }

  /** No version is given twice: what a step stores has a version that no path has had at any moment before. */
  lemma NoVersionTwice(c: Config, p: Trace, t: Trace, key: Key, other: Key)
    requires Run(c, t) && t.More? && Within(p, t.before) && other in p.state.files && key in t.state.files
    requires key !in t.before.state.files || t.state.files[key] != t.before.state.files[key]
    ensures t.state.files[key].version != p.state.files[other].version
  {
    AlwaysVersioned(c, p, t.before);
    StepGivesNew(c, t.before.state, t.event);
  }

  /** No lost update: a put or a delete that succeeds on the version somebody read has found the path as it was then, and
      nobody had changed it at any moment in between. */
  lemma NoLostUpdate(c: Config, read: Trace, m: Trace, t: Trace, key: Key, version: nat)
    requires Run(c, t) && t.More? && Within(m, t.before) && Within(read, m)
    requires key in read.state.files && read.state.files[key].version == version
    requires (t.event.PutIn? && t.event.key == key && t.event.expected == Exactly(version))
             || (t.event.CheckedDeleteOf? && t.event.key == key && t.event.version == version)
    requires Call(c, t.before.state, t.event).Done?
    ensures key in m.state.files && m.state.files[key] == read.state.files[key]
  {
    var s := t.before.state;
    if t.event.PutIn? {
      PutIsConditional(c, s, key, t.event.data, t.event.expected, t.event.actor);
    } else {
      DeleteIsConditional(c, s, key, version, t.event.actor);
    }
    AlwaysVersioned(c, m, t.before);
    AlwaysVersioned(c, read, m);
    VersionNamesOneContent(c, m, t.before, key);
    VersionNamesOneContent(c, read, m, key);
  }

  /** The layout is fixed: nothing under .vault/ but folders is ever written, so what is there was there from the
      beginning. */
  lemma {:induction false} LayoutIsFixed(c: Config, t: Trace, key: Key)
    requires Run(c, t) && StartsWith(key, ".vault/") && !EndsWith(key, "/") && key in t.state.files
    ensures key in Beginning(t).files && Beginning(t).files[key] == t.state.files[key]
  {
    if t.More? {
      LayoutStep(c, t.before.state, t.event, key);
      LayoutIsFixed(c, t.before, key);
    }
  }

  function Beginning(t: Trace): Shared {
    if t.First? then t.state else Beginning(t.before)
  }

  lemma LayoutStep(c: Config, s: Shared, e: Event, key: Key)
    requires StartsWith(key, ".vault/") && !EndsWith(key, "/") && key in Next(c, s, e).files
    ensures key in s.files && s.files[key] == Next(c, s, e).files[key]
  {
    if e.FolderAt? {
      var folder := StripSlashes(e.key) + "/";
      assert folder[|folder| - 1..] == "/";
    }
  }

  /** At every moment each recorded note lies in a folder that takes it. */
  lemma NotesLieInTheirFolders(c: Config, t: Trace, key: Key)
    requires Sound(c) && Run(c, t) && key in t.state.files && Recorded(key) && EndsWith(key, ".md")
    ensures InItsFolder(key, c.kindOf(t.state.files[key].data))
  {
    HistoryReplays(c, t);
    assert key in RecordedPart(t.state.files);
    RulesLetInExactly(c, key, t.state.files[key].data);
  }

  /** At every moment the recorded changes replay to the contents of the recorded paths, and every stored note is one
      that the rules of the vault let in. */
  lemma {:induction false} HistoryReplays(c: Config, t: Trace)
    requires Sound(c) && Run(c, t)
    ensures Permitted(c, Start(t)) && Coherent(c, Start(t), t.state)
    ensures Replay(c, Start(t), t.state.blobs, t.state.rows) == RecordedPart(t.state.files)
    ensures Permitted(c, RecordedPart(t.state.files))
  {
    if t.More? {
      HistoryReplays(c, t.before);
      StepKeeps(c, Start(t), t.before.state, t.event);
    }
    PastIsPermitted(c, Start(t), t.state.blobs, t.state.rows);
  }

  /** One more row at most, written by `actor`, after all the old ones; nothing kept is lost. */
  predicate Extends(c: Config, s: Shared, after: Shared, actor: Actor) {
    && s.rows <= after.rows && |after.rows| <= |s.rows| + 1 && Grown(s.blobs, after.blobs)
    && (|after.rows| > |s.rows| ==> after.rows[|s.rows|].author == actor)
    && (after.rows == s.rows ==> RecordedPart(after.files) == RecordedPart(s.files))
  }

  lemma PutExtends(c: Config, s: Shared, key: Key, data: Bytes, expected: Expect, actor: Actor)
    requires Put(c, s, key, data, expected, actor).Done?
    ensures Extends(c, s, Put(c, s, key, data, expected, actor).state, actor)
  {
    StoredPart(s.files, key, File(data, s.next));
    if Recorded(key) && Data(s, key) == Some(data) {
      assert RecordedPart(s.files)[key] == data;
    }
  }

  lemma DropExtends(c: Config, s: Shared, key: Key, actor: Actor)
    requires ValidPath(c, key)
    ensures Extends(c, s, Dropped(c, s, key, actor), actor)
  {
    if key !in s.files || !Recorded(key) {
      assert RecordedPart(s.files - {key}) == RecordedPart(s.files);
    }
  }

  lemma MoveExtends(c: Config, s: Shared, src: Key, dst: Key, actor: Actor)
    requires Move(c, s, src, dst, actor).Done?
    ensures Extends(c, s, Move(c, s, src, dst, actor).state, actor)
  {
    if !Recorded(src) && !Recorded(dst) {
      MovedUnseen(s, src, dst);
    }
  }

  lemma RestoreExtends(c: Config, s: Shared, change: nat, actor: Actor)
    requires change < |s.rows| && Restore(c, s, change, actor).Done?
    ensures Extends(c, s, Restore(c, s, change, actor).state, actor) || !Recorded(PathIn(c, s.rows[change]))
  {
    var path := PathIn(c, s.rows[change]);
    if Recorded(path) && Restore(c, s, change, actor) != Done(s) {
      var data := Content(s.blobs, s.rows[change].before).value;
      PutExtends(c, s, path, data, Anything, actor);
      var put := Put(c, s, path, data, Anything, actor).state;
      assert put.rows == s.rows + [put.rows[|s.rows|]];
      MarkedLast(s.rows, put.rows[|s.rows|], change);
    }
  }

  lemma StepExtends(c: Config, start: map<Key, Bytes>, s: Shared, e: Event)
    requires Sound(c) && Coherent(c, start, s) && Permitted(c, start)
    ensures Extends(c, s, Next(c, s, e), e.actor)
  {
    if Call(c, s, e).Done? {
      match e
      case PutIn(key, data, expected, actor) => PutExtends(c, s, key, data, expected, actor);
      case DeleteOf(key, actor) => DropExtends(c, s, key, actor);
      case CheckedDeleteOf(key, version, actor) => DropExtends(c, s, key, actor);
      case MoveTo(src, dst, actor) => MoveExtends(c, s, src, dst, actor);
      case FolderAt(key, _) => StoredPart(s.files, StripSlashes(key) + "/", File([], s.next));
      case RestoreOf(change, actor) =>
        RestoreBringsBack(c, start, s, change, actor);
        PreviousIsReplayed(c, start, s, change);
        RestoreExtends(c, s, change, actor);
    }
  }

  /** The history only grows: no row is ever changed or dropped, every kept version stays readable, and recorded
      contents never change without one more row, by the one who made the change. */
  lemma HistoryOnlyGrows(c: Config, t: Trace)
    requires Sound(c) && Run(c, t) && t.More?
    ensures Extends(c, t.before.state, t.state, t.event.actor)
    ensures forall i :: 0 <= i < |t.before.state.rows| ==>
              ChangeOf(c, t.state.blobs, t.state.rows[i]) == ChangeOf(c, t.before.state.blobs, t.before.state.rows[i])
  {
    HistoryReplays(c, t.before);
    StepExtends(c, Start(t.before), t.before.state, t.event);
    PastIsKept(c, Start(t), t.before.state.blobs, t.state.blobs, t.before.state.rows);
  }

  // ---- the objects ----

  /** The history of one vault: its kept contents and its rows. */
  class History {
    const c: Config
    var blobs: map<Blob, Bytes>
    var rows: seq<Row>

    constructor (c: Config)
      ensures this.c == c && blobs == map[] && rows == []
    {
      this.c, blobs, rows := c, map[], [];
    }

    /** Stores a content once; a content already kept is left as it is. */
    method Keep(data: Option<Bytes>) returns (blob: Option<Blob>)
      modifies this`blobs
      ensures blob == BlobOf(c, data)
      ensures blobs == KeptBoth(c, old(blobs), data, None)
    {
      if data.None? {
        return None;
      }
      var name := c.blobId(data.value);
      if name !in blobs {
        blobs := blobs[name := data.value];
      }
      blob := Some(name);
    }

    method Record(actor: Actor, action: Action, path: Key, before: Option<Bytes>, after: Option<Bytes>,
                  src: Option<Key>, ghost s: Shared)
      requires ValidPath(c, path) && (src.Some? ==> ValidPath(c, src.value))
      requires s.blobs == blobs && s.rows == rows
      modifies this
      ensures s.(blobs := blobs, rows := rows) == Noted(c, s, actor, action, path, before, after, src)
    {
      var beforeId := Keep(before);
      var afterId := Keep(after);
      var from := None;
      if src.Some? {
        from := Some(SealedName(c, src.value));
      }
      rows := rows + [Row(SealedName(c, path), from, action, actor, beforeId, afterId, None)];
    }

    method ContentOf(blob: Option<Blob>) returns (data: Option<Bytes>)
      ensures data == Content(blobs, blob)
    {
      data := if blob.Some? && blob.value in blobs then Some(blobs[blob.value]) else None;
    }

    /** Marks the newest row of a path. */
    method Mark(path: string, change: nat)
      modifies this`rows
      ensures rows == Marked(old(rows), path, change)
    {
      var n := |rows|;
      assert rows[..n] == rows;
      while n > 0 && rows[n - 1].path != path
        invariant n <= |rows| && Newest(rows, path) == Newest(rows[..n], path)
      {
        assert rows[..n][..n - 1] == rows[..n - 1];
        n := n - 1;
      }
      if n > 0 {
        rows := rows[n - 1 := rows[n - 1].(restoredFrom := Some(change))];
      }
    }

    /** Puts the previous version of a change back, through the backend that records it, and marks that row. */
    method RestoreChange(change: nat, actor: Actor, backend: SharedBackend)
      returns (changed: bool, failure: Option<Error>)
      requires change < |rows| && backend.history == this
      modifies this, backend
      ensures var outcome := Restore(c, old(backend.Now()), change, actor);
        && failure == (if outcome.Failed? then Some(outcome.error) else None)
        && backend.Now() == (if outcome.Done? then outcome.state else old(backend.Now()))
        && (changed <==> outcome.Done? && outcome.state != old(backend.Now()))
    {
      var row := rows[change];
      var data := None;
      if Restorable(row) {
        data := ContentOf(row.before);
      }
      if data.None? {
        return false, Some(NotFound);
      }
      var path := PathIn(c, row);
      var stored, refused := backend.Previous(path);
      if refused.Some? {
        return false, refused;
      }
      if stored == data {
        return false, None;
      }
      failure := backend.PutChecked(path, data.value, Anything, actor);
      if failure.None? {
        Mark(SealedName(c, path), change);
      }
      changed := failure.None?;
    }
  }

  /** The store of a shared vault, with its writes checked and recorded. */
  class SharedBackend {
    const history: History
    var files: map<Key, File>
    var next: nat

    constructor (history: History)
      ensures this.history == history && files == map[] && next == 0
    {
      this.history, files, next := history, map[], 0;
    }

    ghost function Now(): Shared
      reads this, history
    {
      Shared(files, next, history.blobs, history.rows)
    }

    method Previous(key: Key) returns (data: Option<Bytes>, failure: Option<Error>)
      ensures failure == if ValidPath(history.c, key) then None else Some(BadPath)
      ensures ValidPath(history.c, key) ==> data == Data(Now(), key)
    {
      if !ValidPath(history.c, key) {
        return None, Some(BadPath);
      }
      data, failure := if key in files then Some(files[key].data) else None, None;
    }

    /** The sealed store's own checked write. */
    method PutInner(key: Key, data: Bytes, expected: Expect) returns (failure: Option<Error>)
      modifies this`files, this`next
      ensures failure == if !ValidPath(history.c, key) then Some(BadPath)
                         else if !Meets(old(Now()), key, expected) then Some(Conflict) else None
      ensures Now() == if failure.None? then Stored(old(Now()), key, data) else old(Now())
    {
      if !ValidPath(history.c, key) {
        return Some(BadPath);
      }
      var meets := match expected
        case Anything => true
        case Absent => key !in files
        case Exactly(version) => key in files && files[key].version == version;
      if !meets {
        return Some(Conflict);
      }
      files := files[key := File(data, next)];
      next := next + 1;
      failure := None;
    }

    method PutChecked(key: Key, data: Bytes, expected: Expect, actor: Actor) returns (failure: Option<Error>)
      modifies this, history
      ensures var outcome := Put(history.c, old(Now()), key, data, expected, actor);
        && failure == (if outcome.Failed? then Some(outcome.error) else None)
        && Now() == (if outcome.Done? then outcome.state else old(Now()))
      ensures failure.None? ==> Expected(old(Now()), key, expected) && HoldsNew(old(Now()), Now(), key, data)
    {
      PutIsConditional(history.c, Now(), key, data, expected, actor);
      failure := CheckWrite(history.c, key, data);
      if failure.Some? {
        return;
      }
      var before := None;
      if Recorded(key) {
        before, failure := Previous(key);
        if failure.Some? {
          return;
        }
      }
      failure := PutInner(key, data, expected);
      if failure.None? && Recorded(key) && before != Some(data) {
        history.Record(actor, if before.None? then Created else Updated, key, before, Some(data), None, Now());
      }
    }

    method Remove(key: Key, expected: Option<nat>, actor: Actor) returns (failure: Option<Error>)
      modifies this, history
      ensures var outcome := if expected.Some? then DeleteChecked(history.c, old(Now()), key, expected.value, actor)
                             else Delete(history.c, old(Now()), key, actor);
        && failure == (if outcome.Failed? then Some(outcome.error) else None)
        && Now() == (if outcome.Done? then outcome.state else old(Now()))
      ensures failure.None? ==> key in old(files) && files == old(files) - {key}
                                && (expected.Some? ==> old(files)[key].version == expected.value)
    {
      var before := None;
      if Recorded(key) {
        before, failure := Previous(key);
        if failure.Some? {
          return;
        }
      }
      if !ValidPath(history.c, key) {
        return Some(BadPath);
      }
      if expected.Some? && !(key in files && files[key].version == expected.value) {
        return Some(Conflict);
      }
      if key !in files {
        return Some(NotFound);
      }
      files := files - {key};
      failure := None;
      if before.Some? {
        history.Record(actor, Deleted, key, before, None, None, Now());
      }
    }

    method MoveFile(src: Key, dst: Key, actor: Actor) returns (failure: Option<Error>)
      modifies this, history
      ensures var outcome := Move(history.c, old(Now()), src, dst, actor);
        && failure == (if outcome.Failed? then Some(outcome.error) else None)
        && Now() == (if outcome.Done? then outcome.state else old(Now()))
    {
      var data, bad := Previous(src);
      if bad.Some? {
        return bad;
      }
      if data.None? {
        return Some(NotFound);
      }
      failure := CheckWrite(history.c, dst, data.value);
      if failure.Some? {
        return;
      }
      if EndsWith(src, "/") {
        return Some(IsFolder);
      }
      failure := PutInner(dst, data.value, Anything);
      if failure.Some? {
        return;
      }
      files := files - {src};
      if Recorded(src) || Recorded(dst) {
        history.Record(actor, Moved, dst, data, data, Some(src), Now());
      }
    }
  }
}
