/** WebDAV collections over a tree of files: DELETE, MKCOL, MOVE and COPY (sections 9.3 and 9.6 to 9.9 of RFC 4918), as
    mindin/dav.py:215-230, 327-419 does them over the folder store of mindin/backends/local.py:87-175. */
module WebDav {
  import opened Texts

  type Key = string
  type Data = string

  /** Files by key, folders by their key with its closing slash; the root itself is neither. */
  datatype Tree = Tree(files: map<Key, Data>, dirs: set<Key>)

  datatype Kind = AFile | AFolder | Missing
  datatype Status = Created | NoContent | Forbidden | BadRequest | NotFound | NotAllowed | Exists | Failure

  predicate IsFolderKey(key: Key) {
    key != "" && key[|key| - 1] == '/'
  }

  /** A folder that `key` lies in. */
  predicate Above(folder: Key, key: Key) {
    IsFolderKey(folder) && folder <= key && folder != key
  }

  predicate Present(s: Tree, key: Key) {
    key in s.files || key in s.dirs
  }

  /** The keys a request may name, apart from the root: no empty segment. */
  predicate Clean(key: Key) {
    key != "" && key[0] != '/' && forall i :: 0 < i < |key| && key[i] == '/' ==> key[i - 1] != '/'
  }

  /** What a file system keeps: every key lies in folders that exist, and no name is both a file and a folder. */
  ghost predicate Closed(s: Tree) {
    && (forall key :: Present(s, key) ==> Clean(key))
    && (forall key :: key in s.files ==> !IsFolderKey(key) && key + "/" !in s.dirs)
    && (forall key :: key in s.dirs ==> IsFolderKey(key))
    && (forall key, folder :: Present(s, key) && Above(folder, key) ==> folder in s.dirs)
  }

  function Base(key: Key): (base: Key)
    ensures base <= key && !IsFolderKey(base)
  {
    if IsFolderKey(key) then Base(key[..|key| - 1]) else key
  }

  function Folder(key: Key): (folder: Key)
    ensures IsFolderKey(folder)
  {
    Base(key) + "/"
  }

  lemma CleanFolder(base: Key)
    requires Clean(base) && !IsFolderKey(base)
    ensures Clean(base + "/")
  {
    forall i | 0 < i < |base| + 1 && (base + "/")[i] == '/' ensures (base + "/")[i - 1] != '/' {
      assert i < |base| ==> base[i] == '/';
    }
  }

  lemma CleanTrimmed(base: Key)
    requires Clean(base + "/")
    ensures base != "" && Clean(base) && !IsFolderKey(base)
  {
    var key, n := base + "/", |base|;
    assert key[n] == '/' && key[0] != '/';
    assert key[n - 1] == base[n - 1];
    forall i | 0 < i < n && base[i] == '/' ensures base[i - 1] != '/' {
      assert key[i] == base[i] && key[i - 1] == base[i - 1];
    }
  }

  lemma CleanBase(key: Key)
    requires Clean(key)
    ensures Base(key) == (if IsFolderKey(key) then key[..|key| - 1] else key) && Clean(Base(key)) && Clean(Folder(key))
    ensures IsFolderKey(key) ==> Folder(key) == key
  {
    if IsFolderKey(key) {
      Trimmed(key);
      TrimmedBase(key, key[..|key| - 1]);
    } else {
      CleanFolder(key);
    }
  }

  lemma Trimmed(key: Key)
    requires IsFolderKey(key)
    ensures key == key[..|key| - 1] + "/"
  {
  }

  lemma TrimmedBase(key: Key, base: Key)
    requires Clean(key) && key == base + "/"
    ensures Base(key) == base && Clean(base) && Folder(key) == key
  {
    CleanTrimmed(base);
    assert key[..|base|] == base;
  }

  /** The folders that a key names or lies in. */
  function Ancestors(key: Key): set<Key> {
    set i | 0 < i <= |key| && key[i - 1] == '/' :: key[..i]
  }

  lemma AncestorsAre(key: Key, folder: Key)
    ensures folder in Ancestors(key) <==> IsFolderKey(folder) && folder <= key
  {
    if IsFolderKey(folder) && folder <= key {
      assert key[..|folder|] == folder && key[|folder| - 1] == '/';
    }
  }

  // ---- the folder store ----

  /** A file stands where the key needs a folder. */
  predicate Blocked(s: Tree, key: Key) {
    exists file :: file in s.files && file + "/" <= key
  }

  function MakeFolder(s: Tree, key: Key): Option<Tree> {
    if Blocked(s, Folder(key)) then None else Some(s.(dirs := s.dirs + Ancestors(Folder(key))))
  }

  function PutFile(s: Tree, key: Key, data: Data): Option<Tree> {
    if Blocked(s, key) || key + "/" in s.dirs then None
    else Some(Tree(s.files[key := data], s.dirs + Ancestors(key)))
  }

  datatype Removal = Removed(tree: Tree) | NoSuch | NotEmpty

  predicate Empty(s: Tree, folder: Key) {
    (forall key :: key in s.files ==> !(folder <= key)) && (forall key :: key in s.dirs ==> !Above(folder, key))
  }

  /** `rmdir` for a folder, `unlink` for anything else. */
  function Remove(s: Tree, key: Key): Removal {
    if Folder(key) in s.dirs then
      if Empty(s, Folder(key)) then Removed(s.(dirs := s.dirs - {Folder(key)})) else NotEmpty
    else if Base(key) in s.files then Removed(s.(files := s.files - {Base(key)}))
    else NoSuch
  }

  function MoveFile(s: Tree, src: Key, dst: Key): Option<Tree> {
    if src !in s.files || Blocked(s, dst) || dst + "/" in s.dirs then None
    else Some(Tree((s.files - {src})[dst := s.files[src]], s.dirs + Ancestors(dst)))
  }

  lemma MakeFolderKeeps(s: Tree, key: Key)
    requires Closed(s) && MakeFolder(s, key).Some? && Clean(key)
    ensures Closed(MakeFolder(s, key).value)
  {
    var after := MakeFolder(s, key).value;
    forall k ensures k in Ancestors(Folder(key)) <==> IsFolderKey(k) && k <= Folder(key) {
      AncestorsAre(Folder(key), k);
    }
    CleanBase(key);
    forall k, folder | Present(after, k) && Above(folder, k) ensures folder in after.dirs {
      assert Present(s, k) || k <= Folder(key);
    }
  }

  lemma PutFileKeeps(s: Tree, key: Key, data: Data)
    requires Closed(s) && PutFile(s, key, data).Some? && Clean(key) && !IsFolderKey(key)
    ensures Closed(PutFile(s, key, data).value)
  {
    var after := PutFile(s, key, data).value;
    forall k ensures k in Ancestors(key) <==> IsFolderKey(k) && k <= key {
      AncestorsAre(key, k);
    }
    forall k, folder | Present(after, k) && Above(folder, k) ensures folder in after.dirs {
      assert k == key || Present(s, k) || k <= key;
    }
  }

  lemma RemoveKeeps(s: Tree, key: Key)
    requires Closed(s) && Remove(s, key).Removed?
    ensures Closed(Remove(s, key).tree)
  {
    var after := Remove(s, key).tree;
    forall k, folder | Present(after, k) && Above(folder, k) ensures folder in after.dirs {
      assert Present(s, k);
    }
  }

  lemma MoveFileKeeps(s: Tree, src: Key, dst: Key)
    requires Closed(s) && MoveFile(s, src, dst).Some? && Clean(dst) && !IsFolderKey(dst)
    ensures Closed(MoveFile(s, src, dst).value)
  {
    var after := MoveFile(s, src, dst).value;
    forall k ensures k in Ancestors(dst) <==> IsFolderKey(k) && k <= dst {
      AncestorsAre(dst, k);
    }
    forall k, folder | Present(after, k) && Above(folder, k) ensures folder in after.dirs {
      assert k == dst || Present(s, k) || k <= dst;
    }
  }

  function Lookup(s: Tree, key: Key): Kind {
    if key == "" then AFolder
    else if !IsFolderKey(key) && key in s.files then AFile
    else if Folder(key) in s.dirs || (exists k :: k in s.files && Folder(key) <= k)
            || (exists k :: k in s.dirs && Folder(key) <= k)
    then AFolder
    else Missing
  }

  // ---- what MOVE and COPY of a collection promise ----

  /** Where a key of the target comes from. */
  function Origin(source: Key, target: Key, key: Key): Key
    requires target <= key
  {
    source + key[|target|..]
  }

  function FileAt(s: Tree, key: Key): Option<Data> {
    if key in s.files then Some(s.files[key]) else None
  }

  /** The file a key holds after the source tree has taken the target's place. */
  function FileAfter(s: Tree, source: Key, target: Key, copy: bool, key: Key): Option<Data> {
    if target <= key then FileAt(s, Origin(source, target, key))
    else if !copy && source <= key then None
    else FileAt(s, key)
  }

  predicate FolderAfter(s: Tree, source: Key, target: Key, copy: bool, key: Key) {
    if target <= key then key == target || Origin(source, target, key) in s.dirs
    else if key in Ancestors(target) then true
    else (key in s.dirs && (copy || !(source <= key)))
  }

  ghost predicate Transferred(s: Tree, source: Key, target: Key, copy: bool, after: Tree) {
    && (forall key :: FileAt(after, key) == FileAfter(s, source, target, copy, key))
    && (forall key :: key in after.dirs <==> FolderAfter(s, source, target, copy, key))
  }

  // ---- emptying a folder ----

  /** Nothing left at or under a folder, nor a file of its name. */
  function Cleared(s: Tree, folder: Key): Tree {
    Tree(map key | key in s.files && !(folder <= key) && key != Base(folder) :: s.files[key],
         set key | key in s.dirs && !(folder <= key))
  }

  lemma ClearedIsClosed(s: Tree, folder: Key)
    requires Closed(s) && IsFolderKey(folder)
    ensures Closed(Cleared(s, folder))
  {
    var after := Cleared(s, folder);
    forall key, above | Present(after, key) && Above(above, key) ensures above in after.dirs {
      assert Present(s, key);
    }
  }

  function WithoutTree(s: Tree, folder: Key): Tree {
    Tree(map key | key in s.files && !(folder <= key) :: s.files[key], set key | key in s.dirs && !(folder <= key))
  }

  /** What is left to do once everything under a folder has gone. */
  lemma ClearedAtLast(s: Tree, folder: Key)
    requires Closed(s) && Clean(folder) && IsFolderKey(folder)
    ensures folder in s.dirs ==> WithoutTree(s, folder) == Cleared(s, folder)
    ensures folder !in s.dirs ==>
      Remove(WithoutTree(s, folder), folder) in {Removed(Cleared(s, folder)), NoSuch}
    ensures folder !in s.dirs && Remove(WithoutTree(s, folder), folder) == NoSuch ==>
      WithoutTree(s, folder) == Cleared(s, folder)
  {
    CleanBase(folder);
    var base, left := Base(folder), WithoutTree(s, folder);
    assert folder == base + "/";
    if base in s.files {
      assert left.files - {base} == Cleared(s, folder).files;
    } else {
      assert left.files == Cleared(s, folder).files;
    }
  }

  /** The folder under which a longest one of the remaining folders is looked for holds nothing but itself. */
  lemma LongestIsEmpty(s: Tree, left: set<Key>, folder: Key)
    requires Closed(s) && folder in left && folder in s.dirs
    requires forall key :: key in s.dirs && folder <= key ==> key in left
    requires forall key :: key in left ==> |key| <= |folder|
    requires forall key :: key in s.files ==> !(folder <= key)
    ensures Empty(s, folder)
  {
  }

  // ---- moving and copying a folder, entry by entry ----

  /** Where a key of the source goes. */
  function Image(source: Key, target: Key, key: Key): Key
    requires source <= key
  {
    target + key[|source|..]
  }

  lemma ImageAndOrigin(source: Key, target: Key, key: Key, image: Key)
    requires source <= key && target <= image
    ensures target <= Image(source, target, key) && source <= Origin(source, target, image)
    ensures Image(source, target, key) == image <==> Origin(source, target, image) == key
  {
    if Image(source, target, key) == image {
      assert source + image[|target|..] == source + key[|source|..] == key;
    }
    if Origin(source, target, image) == key {
      assert target + key[|source|..] == target + image[|target|..] == image;
    }
  }

  /** A prefix of an image is the image of a prefix, or a prefix of the target. */
  lemma PrefixOfImage(source: Key, target: Key, key: Key, prefix: Key)
    requires source <= key && prefix <= Image(source, target, key)
    ensures target <= prefix || prefix <= target
    ensures target <= prefix ==> Origin(source, target, prefix) <= key
  {
    if target <= prefix {
      assert prefix[|target|..] <= key[|source|..];
    }
  }

  lemma OriginEnds(source: Key, target: Key, key: Key)
    requires IsFolderKey(source) && IsFolderKey(target) && target <= key
    ensures IsFolderKey(Origin(source, target, key)) <==> IsFolderKey(key)
    ensures Origin(source, target, key + "/") == Origin(source, target, key) + "/"
  {
    var rest := key[|target|..];
    if rest == "" {
      assert key == target && source + rest == source;
    } else {
      assert key[|key| - 1] == rest[|rest| - 1] == (source + rest)[|source + rest| - 1];
    }
    assert (key + "/")[|target|..] == rest + "/";
    assert source + (rest + "/") == source + rest + "/";
  }

  lemma CleanImage(source: Key, target: Key, key: Key)
    requires Clean(key) && Clean(target) && IsFolderKey(source) && IsFolderKey(target)
    requires source <= key && source != key
    ensures Clean(Image(source, target, key))
    ensures IsFolderKey(Image(source, target, key)) <==> IsFolderKey(key)
  {
    var n, m, rest := |source|, |target|, key[|source|..];
    var image := target + rest;
    assert key[n - 1] == source[n - 1] && rest[0] == key[n];
    forall i | 0 < i < |image| && image[i] == '/' ensures image[i - 1] != '/' {
      if i > m {
        assert image[i] == key[n + i - m] && image[i - 1] == key[n + i - m - 1];
      } else if i < m {
        assert image[i] == target[i] && image[i - 1] == target[i - 1];
      }
    }
    ImageAndOrigin(source, target, key, image);
    OriginEnds(source, target, image);
  }

  /** A source folder, and a target with nothing in it, outside the source. */
  ghost predicate Ready(s: Tree, source: Key, target: Key) {
    && Closed(s) && Clean(source) && Clean(target) && IsFolderKey(source) && IsFolderKey(target)
    && !(source <= target) && (forall key :: Present(s, key) ==> !(target <= key)) && !Blocked(s, target)
  }

  function FileMidway(s: Tree, source: Key, target: Key, copy: bool, done: set<Key>, key: Key): Option<Data> {
    if target <= key then
      if Origin(source, target, key) in done then FileAt(s, Origin(source, target, key)) else None
    else if !copy && key in done then None
    else FileAt(s, key)
  }

  predicate FolderMidway(s: Tree, source: Key, target: Key, key: Key) {
    if target <= key then key == target || Origin(source, target, key) in s.dirs
    else key in Ancestors(target) || key in s.dirs
  }

  /** Some entries of the source have been carried over. */
  ghost predicate FilesCarried(s: Tree, source: Key, target: Key, copy: bool, done: set<Key>, now: Tree) {
    forall key :: FileAt(now, key) == FileMidway(s, source, target, copy, done, key)
  }

  ghost predicate FoldersCarried(s: Tree, source: Key, target: Key, done: set<Key>, now: Tree) {
    && (forall key :: key in now.dirs ==> FolderMidway(s, source, target, key))
    && s.dirs + Ancestors(target) <= now.dirs
    && (forall key :: key in done && key in s.dirs && source <= key ==> Image(source, target, key) in now.dirs)
  }

  /** No file has the name of a folder that a present key lies in. */
  lemma NoFileAbove(s: Tree, file: Key, key: Key)
    requires Closed(s) && file in s.files && Present(s, key)
    ensures !(file + "/" <= key)
  {
    assert file + "/" <= key ==> file + "/" == key || Above(file + "/", key);
  }

  /** No file stands in the way of an image, and no folder has its name. */
  lemma ImageIsFree(s: Tree, source: Key, target: Key, copy: bool, done: set<Key>, now: Tree, key: Key)
    requires Ready(s, source, target) && Closed(now)
    requires FilesCarried(s, source, target, copy, done, now) && FoldersCarried(s, source, target, done, now)
    requires Present(s, key) && source <= key && source != key
    ensures !Blocked(now, Image(source, target, key))
    ensures key in s.files ==> Image(source, target, key) + "/" !in now.dirs
  {
    var image := Image(source, target, key);
    AncestorsAre(target, target);
    forall file | file in now.files ensures !(file + "/" <= image) {
      assert FileAt(now, file) == FileMidway(s, source, target, copy, done, file);
      NoFileAbove(now, file, target);
      if target <= file {
        NoFileAbove(s, Origin(source, target, file), key);
        OriginEnds(source, target, file);
      }
      if file + "/" <= image {
        PrefixOfImage(source, target, key, file + "/");
      }
    }
    if key in s.files {
      ImageAndOrigin(source, target, key, image);
      OriginEnds(source, target, image);
      assert image + "/" in now.dirs ==> FolderMidway(s, source, target, image + "/");
    }
  }

  /** The folders above an image are the images of folders above the key, or folders the target lies in. */
  lemma ImageAncestors(s: Tree, source: Key, target: Key, key: Key, folder: Key)
    requires Ready(s, source, target) && Present(s, key) && source <= key
    requires folder in Ancestors(Image(source, target, key))
    ensures FolderMidway(s, source, target, folder)
  {
    AncestorsAre(Image(source, target, key), folder);
    AncestorsAre(target, folder);
    PrefixOfImage(source, target, key, folder);
    if target <= folder && folder != target {
      var from := Origin(source, target, folder);
      OriginEnds(source, target, folder);
      assert from == key || Above(from, key);
    }
  }

  lemma FoldersStayCarried(s: Tree, source: Key, target: Key, done: set<Key>, now: Tree, key: Key, after: Tree)
    requires Ready(s, source, target) && FoldersCarried(s, source, target, done, now)
    requires Present(s, key) && source <= key
    requires after.dirs == now.dirs + Ancestors(Image(source, target, key))
    requires IsFolderKey(key) ==> IsFolderKey(Image(source, target, key))
    ensures FoldersCarried(s, source, target, done + {key}, after)
  {
    forall folder | folder in after.dirs ensures FolderMidway(s, source, target, folder) {
      if folder in Ancestors(Image(source, target, key)) {
        ImageAncestors(s, source, target, key, folder);
      }
    }
    AncestorsAre(Image(source, target, key), Image(source, target, key));
  }

  /** One more entry carried: its image holds its file, if it is one, and in a move its old place is empty. */
  lemma MidwayAfter(s: Tree, source: Key, target: Key, copy: bool, done: set<Key>, key: Key, other: Key)
    requires Ready(s, source, target) && Present(s, key) && key !in done && source <= key
    ensures FileMidway(s, source, target, copy, done + {key}, other) ==
            if other == Image(source, target, key) then FileAt(s, key)
            else if !copy && other == key then None
            else FileMidway(s, source, target, copy, done, other)
  {
    ImageAndOrigin(source, target, key, Image(source, target, key));
    if target <= other {
      ImageAndOrigin(source, target, key, other);
    }
  }

  lemma CarryFolder(s: Tree, source: Key, target: Key, copy: bool, done: set<Key>, now: Tree, key: Key)
    requires Ready(s, source, target) && Closed(now)
    requires FilesCarried(s, source, target, copy, done, now) && FoldersCarried(s, source, target, done, now)
    requires key in s.dirs && key !in done && source <= key && source != key
    ensures var made := MakeFolder(now, Image(source, target, key));
      && Clean(Image(source, target, key)) && made.Some?
      && FilesCarried(s, source, target, copy, done + {key}, made.value)
      && FoldersCarried(s, source, target, done + {key}, made.value)
  {
    var image := Image(source, target, key);
    CleanImage(source, target, key);
    CleanBase(image);
    ImageIsFree(s, source, target, copy, done, now, key);
    FoldersStayCarried(s, source, target, done, now, key, MakeFolder(now, image).value);
    FolderCarriesNoFile(s, source, target, copy, done, now, key);
  }

  lemma FolderCarriesNoFile(s: Tree, source: Key, target: Key, copy: bool, done: set<Key>, now: Tree, key: Key)
    requires Ready(s, source, target) && FilesCarried(s, source, target, copy, done, now)
    requires key in s.dirs && key !in done && source <= key
    ensures FilesCarried(s, source, target, copy, done + {key}, now)
  {
    var image := Image(source, target, key);
    ImageAndOrigin(source, target, key, image);
    forall other ensures FileAt(now, other) == FileMidway(s, source, target, copy, done + {key}, other) {
      assert FileAt(now, other) == FileMidway(s, source, target, copy, done, other);
      MidwayAfter(s, source, target, copy, done, key, other);
    }
  }

  /** A file not yet carried is where it was, and its image can be written. */
  lemma FileCanBeCarried(s: Tree, source: Key, target: Key, copy: bool, done: set<Key>, now: Tree, key: Key)
    requires Ready(s, source, target) && Closed(now)
    requires FilesCarried(s, source, target, copy, done, now) && FoldersCarried(s, source, target, done, now)
    requires key in s.files && key !in done && source <= key && source != key
    ensures var image := Image(source, target, key);
      && FileAt(now, key) == Some(s.files[key]) && Clean(image) && !IsFolderKey(image)
      && !Blocked(now, image) && image + "/" !in now.dirs
  {
    CleanImage(source, target, key);
    ImageIsFree(s, source, target, copy, done, now, key);
    assert Present(s, key) && !(target <= key);
    assert FileAt(now, key) == FileMidway(s, source, target, copy, done, key);
  }

  lemma CarryFile(s: Tree, source: Key, target: Key, copy: bool, done: set<Key>, now: Tree, key: Key)
    requires Ready(s, source, target) && Closed(now)
    requires FilesCarried(s, source, target, copy, done, now) && FoldersCarried(s, source, target, done, now)
    requires key in s.files && key !in done && source <= key && source != key
    ensures var image := Image(source, target, key);
      var put := if copy then PutFile(now, image, s.files[key]) else MoveFile(now, key, image);
      && put.Some?
      && FilesCarried(s, source, target, copy, done + {key}, put.value)
      && FoldersCarried(s, source, target, done + {key}, put.value)
  {
    var image := Image(source, target, key);
    FileCanBeCarried(s, source, target, copy, done, now, key);
    var put := if copy then PutFile(now, image, s.files[key]) else MoveFile(now, key, image);
    FoldersStayCarried(s, source, target, done, now, key, put.value);
    FileIsCarried(s, source, target, copy, done, now, key, put.value);
  }

  lemma FileIsCarried(s: Tree, source: Key, target: Key, copy: bool, done: set<Key>, now: Tree, key: Key, after: Tree)
    requires Ready(s, source, target) && FilesCarried(s, source, target, copy, done, now)
    requires key in s.files && key !in done && source <= key
    requires after.files ==
      (if copy then now.files else now.files - {key})[Image(source, target, key) := s.files[key]]
    ensures FilesCarried(s, source, target, copy, done + {key}, after)
  {
    forall other ensures FileAt(after, other) == FileMidway(s, source, target, copy, done + {key}, other) {
      assert FileAt(now, other) == FileMidway(s, source, target, copy, done, other);
      MidwayAfter(s, source, target, copy, done, key, other);
    }
  }

  /** A copy is complete once every entry has been carried. */
  lemma CopyIsComplete(s: Tree, source: Key, target: Key, done: set<Key>, now: Tree)
    requires Ready(s, source, target)
    requires forall key :: key in done <==> Present(s, key) && source <= key && source != key
    requires FilesCarried(s, source, target, true, done, now) && FoldersCarried(s, source, target, done, now)
    ensures Transferred(s, source, target, true, now)
  {
    forall key ensures FileAt(now, key) == FileAfter(s, source, target, true, key) {
      assert FileAt(now, key) == FileMidway(s, source, target, true, done, key);
    }
    AllFoldersCarried(s, source, target, done, now);
  }

  lemma AllFoldersCarried(s: Tree, source: Key, target: Key, done: set<Key>, now: Tree)
    requires Ready(s, source, target) && FoldersCarried(s, source, target, done, now)
    requires forall key :: Present(s, key) && source <= key && source != key ==> key in done
    ensures forall key :: key in now.dirs <==> FolderMidway(s, source, target, key)
  {
    AncestorsAre(target, target);
    forall key | FolderMidway(s, source, target, key) ensures key in now.dirs {
      if target <= key && key != target {
        var from := Origin(source, target, key);
        ImageAndOrigin(source, target, from, key);
        assert key[|target|..] != "";
        assert source != from && source <= from;
      }
    }
  }

  lemma PrefixesCompare(a: Key, b: Key, key: Key)
    requires a <= key && b <= key
    ensures a <= b || b <= a
  {
    assert a == key[..|a|] && b == key[..|b|];
  }

  /** Once everything has been moved, no file is left at or under the source, nor one of its name. */
  lemma SourceHoldsNoFile(s: Tree, source: Key, target: Key, done: set<Key>, now: Tree, key: Key)
    requires Ready(s, source, target) && Closed(now) && (source in s.dirs || target <= source)
    requires forall key :: key in done <==> Present(s, key) && source <= key && source != key
    requires FilesCarried(s, source, target, false, done, now) && FoldersCarried(s, source, target, done, now)
    requires source <= key || key == Base(source)
    ensures key !in now.files && (source <= key ==> !(target <= key) || target <= source)
  {
    CleanBase(source);
    assert FileAt(now, key) == FileMidway(s, source, target, false, done, key);
    if source <= key && target <= key {
      PrefixesCompare(source, target, key);
    }
    if target <= source {
      assert target != source;
      assert target <= Base(source);
      assert target <= key;
      assert source <= Origin(source, target, key);
      assert target <= Origin(source, target, key);
    } else if key == Base(source) {
      assert key + "/" == source && source in now.dirs;
    } else {
      assert key in s.files ==> key in done;
    }
  }

  /** A move is complete once every entry has been carried and the source has been cleared. */
  lemma MoveIsComplete(s: Tree, source: Key, target: Key, done: set<Key>, now: Tree)
    requires Ready(s, source, target) && Closed(now) && (source in s.dirs || target <= source)
    requires forall key :: key in done <==> Present(s, key) && source <= key && source != key
    requires FilesCarried(s, source, target, false, done, now) && FoldersCarried(s, source, target, done, now)
    ensures Transferred(s, source, target, false, Cleared(now, source))
  {
    var after := Cleared(now, source);
    AllFoldersCarried(s, source, target, done, now);
    forall key ensures FileAt(after, key) == FileAfter(s, source, target, false, key) {
      assert FileAt(now, key) == FileMidway(s, source, target, false, done, key);
      if source <= key || key == Base(source) {
        SourceHoldsNoFile(s, source, target, done, now, key);
      }
    }
    forall key ensures key in after.dirs <==> FolderAfter(s, source, target, false, key) {
      FolderAfterMove(s, source, target, key);
    }
  }

  lemma FolderAfterMove(s: Tree, source: Key, target: Key, key: Key)
    requires Ready(s, source, target) && (source in s.dirs || target <= source)
    ensures FolderAfter(s, source, target, false, key) <==>
            FolderMidway(s, source, target, key) && !(source <= key)
  {
    AncestorsAre(target, key);
    if source <= key {
      if target <= key {
        PrefixesCompare(source, target, key);
        assert target <= Origin(source, target, key);
        assert !Present(s, Origin(source, target, key)) && key != target;
      } else {
        assert !(key <= target);
      }
    }
  }

  // ---- what a request leaves ----

  /** Making the target folder is the start of a transfer that has carried nothing. */
  lemma NothingCarried(s: Tree, source: Key, target: Key, copy: bool)
    requires Ready(s, source, target)
    ensures MakeFolder(s, target).Some? && Closed(MakeFolder(s, target).value)
    ensures FilesCarried(s, source, target, copy, {}, MakeFolder(s, target).value)
    ensures FoldersCarried(s, source, target, {}, MakeFolder(s, target).value)
  {
    CleanBase(target);
    MakeFolderKeeps(s, target);
    var made := MakeFolder(s, target).value;
    forall key ensures FileAt(made, key) == FileMidway(s, source, target, copy, {}, key) {
      assert Present(s, key) ==> !(target <= key);
    }
    forall key | key in made.dirs ensures FolderMidway(s, source, target, key) {
      AncestorsAre(target, key);
      assert Present(s, key) ==> !(target <= key);
      assert key <= target && target <= key ==> key == target;
    }
  }

  /** Once the destination has been cleared, the transfer can begin. */
  lemma ClearedIsReady(s: Tree, source: Key, target: Key, dest: Key)
    requires Closed(s) && Clean(source) && Clean(dest) && IsFolderKey(source) && target == Folder(dest)
    requires !(source <= target) && Lookup(s, dest) != Missing
    ensures Ready(Cleared(s, target), source, target)
  {
    CleanBase(dest);
    CleanBase(target);
    ClearedIsClosed(s, target);
    var left := Cleared(s, target);
    LookupFinds(s, dest);
    forall file | file in left.files ensures !(file + "/" <= target) {
      if target in s.dirs {
        NoFileAbove(s, file, target);
      } else {
        NoFileAbove(s, file, dest);
        ShorterBySlash(file, dest);
      }
    }
  }

  lemma ShorterBySlash(file: Key, dest: Key)
    requires file != dest
    ensures file + "/" <= dest + "/" ==> file + "/" <= dest
  {
    if |file| == |dest| {
      var i :| 0 <= i < |file| && file[i] != dest[i];
      assert (file + "/")[i] != (dest + "/")[i];
    }
  }

  lemma LookupFinds(s: Tree, key: Key)
    requires Closed(s) && Clean(key)
    ensures Lookup(s, key).AFile? <==> !IsFolderKey(key) && key in s.files
    ensures Lookup(s, key).AFolder? ==> Folder(key) in s.dirs
    ensures !IsFolderKey(key) && key in s.files ==> Base(key) == key
    ensures Lookup(s, key).Missing? ==> Folder(key) !in s.dirs && forall k :: Present(s, k) ==> !(Folder(key) <= k)
  {
    if k :| k in s.files && Folder(key) <= k {
      PresentUnder(s, Folder(key), k);
    } else if k :| k in s.dirs && Folder(key) <= k {
      PresentUnder(s, Folder(key), k);
    }
  }

  lemma PresentUnder(s: Tree, folder: Key, key: Key)
    requires Closed(s) && IsFolderKey(folder) && Present(s, key) && folder <= key
    ensures folder in s.dirs
  {
    assert key == folder || Above(folder, key);
  }

  /** What a successful MOVE or COPY of one file leaves. */
  ghost predicate FileTransferred(s: Tree, src: Key, dst: Key, copy: bool, after: Tree) {
    && src in s.files
    && after.files == (if copy then s.files else s.files - {src})[dst := s.files[src]]
    && after.dirs == s.dirs + Ancestors(dst)
  }

  /** What a MOVE or COPY that says it was done has done, whichever kind of resource the key names. */
  ghost predicate Served(s: Tree, key: Key, dest: Key, copy: bool, status: Status, after: Tree) {
    && key != "" && dest != ""
    && status == (if Lookup(s, dest).Missing? then Created else NoContent)
    && match Lookup(s, key)
       case AFile => FileTransferred(s, key, Base(dest), copy, after)
       case AFolder => Folder(key) in s.dirs && !(Folder(key) <= Folder(dest))
                       && Transferred(Cleared(s, Folder(dest)), Folder(key), Folder(dest), copy, after)
       case Missing => false
  }

  /** What a file system refuses: a file where a folder is needed, or a folder where a file goes. */
  predicate Obstructed(s: Tree, key: Key, dest: Key) {
    match Lookup(s, key)
    case AFile => Blocked(s, Base(dest)) || Folder(dest) in s.dirs
    case AFolder => Lookup(s, dest).Missing? && Blocked(s, Folder(dest))
    case Missing => false
  }

  /** The answer to a MOVE or COPY, by what the tree holds. */
  function Answer(s: Tree, key: Key, dest: Key, overwrite: bool): Status {
    if key == "" then Forbidden
    else if dest == "" then BadRequest
    else if Lookup(s, key).Missing? then NotFound
    else if !overwrite && !Lookup(s, dest).Missing? then Exists
    else if Lookup(s, key).AFolder? && Folder(key) <= Folder(dest) then Forbidden
    else if Obstructed(s, key, dest) then Failure
    else if Lookup(s, dest).Missing? then Created
    else NoContent
  }

  /** Something is stored under the key, as a file or as a folder; the root always is. */
  predicate IsFile(s: Tree, key: Key) {
    !IsFolderKey(key) && key in s.files
  }

  predicate IsFolder(s: Tree, key: Key) {
    key == "" || (!IsFile(s, key) && Folder(key) in s.dirs)
  }

  lemma LookupTells(s: Tree, key: Key)
    requires Closed(s) && (key == "" || Clean(key))
    ensures Lookup(s, key).AFile? <==> IsFile(s, key)
    ensures Lookup(s, key).AFolder? <==> IsFolder(s, key)
  {
    if key != "" {
      LookupFinds(s, key);
    } else {
      assert IsFile(s, key) ==> Present(s, key) && Clean(key);
    }
  }

  /** What stands in the way of a file, or of a folder that is not there yet. */
  ghost predicate InTheWay(s: Tree, key: Key, dest: Key) {
    if IsFile(s, key) then Folder(dest) in s.dirs || exists file :: file in s.files && file + "/" <= Base(dest)
    else !IsFile(s, dest) && !IsFolder(s, dest) && exists file :: file in s.files && file + "/" <= Folder(dest)
  }

  /** Each answer to a MOVE or COPY, by the files and folders there are: forbidden for the root, or for a folder into
      itself; not found without a source; refused over something when that is asked for; and otherwise, unless a file
      is in the way, done, with an answer that tells whether something was there before. */
  lemma AnswersExactly(s: Tree, key: Key, dest: Key, overwrite: bool)
    requires Closed(s) && (key == "" || Clean(key)) && (dest == "" || Clean(dest))
    ensures var from, there := IsFile(s, key) || IsFolder(s, key), IsFile(s, dest) || IsFolder(s, dest);
      var named := key != "" && dest != "";
      var into := IsFolder(s, key) && Folder(key) <= Folder(dest);
      && (Answer(s, key, dest, overwrite).BadRequest? <==> key != "" && dest == "")
      && (Answer(s, key, dest, overwrite).NotFound? <==> named && !from)
      && (Answer(s, key, dest, overwrite).Exists? <==> named && from && there && !overwrite)
      && (Answer(s, key, dest, overwrite).Forbidden? <==> key == "" || (named && from && (overwrite || !there) && into))
      && (Answer(s, key, dest, overwrite).Failure? <==>
            named && from && (overwrite || !there) && !into && InTheWay(s, key, dest))
      && (Answer(s, key, dest, overwrite).Created? ==> !there)
      && (Answer(s, key, dest, overwrite).NoContent? ==> there)
      && !Answer(s, key, dest, overwrite).NotAllowed?
  {
    LookupTells(s, key);
    LookupTells(s, dest);
  }

  lemma NothingToClear(s: Tree, target: Key)
    requires Closed(s) && Clean(target) && IsFolderKey(target) && !Blocked(s, target)
    requires forall key :: Present(s, key) ==> !(target <= key)
    ensures Cleared(s, target) == s
  {
    CleanBase(target);
    assert Base(target) + "/" == target;
    assert Base(target) !in s.files;
    assert Cleared(s, target).files == s.files by {
      forall key | key in s.files ensures !(target <= key) {
        assert Present(s, key);
      }
    }
    assert Cleared(s, target).dirs == s.dirs by {
      forall key | key in s.dirs ensures !(target <= key) {
        assert Present(s, key);
      }
    }
  }

  /** The target holds the source tree as it was, renamed. */
  ghost predicate HoldsSource(s: Tree, source: Key, target: Key, after: Tree) {
    && (forall rest :: FileAt(after, target + rest) == FileAt(s, source + rest))
    && (forall rest :: target + rest in after.dirs <==> source + rest in s.dirs)
  }

  ghost predicate Elsewhere(source: Key, target: Key, key: Key) {
    !(source <= key) && !(target <= key) && key != Base(target)
  }

  /** MOVE and COPY of a folder: the target becomes the source renamed, MOVE empties the source, COPY keeps it, and
      every other key is as it was, but for the folders the target lies in. */
  lemma TransferIsARenaming(s: Tree, source: Key, target: Key, copy: bool, after: Tree)
    requires Closed(s) && Clean(source) && Clean(target) && IsFolderKey(source) && IsFolderKey(target)
    requires source in s.dirs && !(source <= target) && !(target <= source)
    requires Transferred(Cleared(s, target), source, target, copy, after)
    ensures HoldsSource(s, source, target, after)
    ensures forall key | source <= key :: FileAt(after, key) == if copy then FileAt(s, key) else None
    ensures forall key | source <= key :: key in after.dirs <==> copy && key in s.dirs
    ensures forall key | Elsewhere(source, target, key) :: FileAt(after, key) == FileAt(s, key)
    ensures forall key | Elsewhere(source, target, key) ::
              key in after.dirs <==> key in s.dirs || key in Ancestors(target)
  {
    var left := Cleared(s, target);
    forall rest
      ensures FileAt(after, target + rest) == FileAt(s, source + rest)
      ensures target + rest in after.dirs <==> source + rest in s.dirs
    {
      SourceIsSpared(s, source, target, rest);
      assert Origin(source, target, target + rest) == source + rest;
      assert FileAt(after, target + rest) == FileAfter(left, source, target, copy, target + rest);
      assert target + rest in after.dirs <==> FolderAfter(left, source, target, copy, target + rest);
      if rest == "" {
        assert source + rest == source && target + rest == target;
      } else {
        assert target + rest != target;
      }
    }
    forall key | source <= key
      ensures FileAt(after, key) == if copy then FileAt(s, key) else None
      ensures key in after.dirs <==> copy && key in s.dirs
    {
      SourceIsSpared(s, source, target, key[|source|..]);
      assert source + key[|source|..] == key;
      AncestorsAre(target, key);
      assert FileAt(after, key) == FileAfter(left, source, target, copy, key);
    }
    forall key | Elsewhere(source, target, key)
      ensures FileAt(after, key) == FileAt(s, key)
      ensures key in after.dirs <==> key in s.dirs || key in Ancestors(target)
    {
      assert FileAt(after, key) == FileAfter(left, source, target, copy, key);
    }
  }

  /** Moving a folder to a free place and back again leaves the tree as it was. */
  lemma ThereAndBack(s: Tree, source: Key, target: Key, there: Tree, back: Tree)
    requires Closed(s) && Closed(there) && Ready(s, source, target) && source in s.dirs
    requires forall key :: Above(key, target) ==> key in s.dirs
    requires Transferred(s, source, target, false, there)
    requires Transferred(Cleared(there, source), target, source, false, back)
    ensures back == s
  {
    NothingToClear(s, target);
    TransferIsARenaming(s, source, target, false, there);
    assert target + "" in there.dirs && target + "" == target && source + "" == source;
    assert !(target <= source);
    TransferIsARenaming(there, target, source, false, back);
    forall key ensures FileAt(back, key) == FileAt(s, key) && (key in back.dirs <==> key in s.dirs) {
      BackAgain(s, source, target, there, back, key);
    }
    SameEverywhere(back, s);
  }

  lemma SameEverywhere(a: Tree, b: Tree)
    requires forall key :: FileAt(a, key) == FileAt(b, key) && (key in a.dirs <==> key in b.dirs)
    ensures a == b
  {
    assert a.files == b.files by {
      forall key
        ensures key in a.files <==> key in b.files
        ensures key in b.files ==> a.files[key] == b.files[key]
      {
        assert FileAt(a, key) == FileAt(b, key);
      }
    }
    assert a.dirs == b.dirs;
  }

  lemma BackAgain(s: Tree, source: Key, target: Key, there: Tree, back: Tree, key: Key)
    requires Closed(s) && Ready(s, source, target) && source in s.dirs && !(target <= source)
    requires forall key :: Above(key, target) ==> key in s.dirs
    requires Transferred(s, source, target, false, there)
    requires HoldsSource(s, source, target, there) && HoldsSource(there, target, source, back)
    requires Transferred(Cleared(there, source), target, source, false, back)
    ensures FileAt(back, key) == FileAt(s, key) && (key in back.dirs <==> key in s.dirs)
  {
    CleanBase(source);
    AncestorsAre(source, key);
    AncestorsAre(target, key);
    if source <= key {
      var rest := key[|source|..];
      assert source + rest == key;
      assert FileAt(there, target + rest) == FileAt(s, source + rest);
      assert FileAt(back, source + rest) == FileAt(there, target + rest);
      assert target + rest in there.dirs <==> source + rest in s.dirs;
      assert source + rest in back.dirs <==> target + rest in there.dirs;
    } else {
      var left := Cleared(there, source);
      assert FileAt(back, key) == FileAfter(left, target, source, false, key);
      assert key in back.dirs <==> FolderAfter(left, target, source, false, key);
      assert FileAt(there, key) == FileAfter(s, source, target, false, key);
      assert key in there.dirs <==> FolderAfter(s, source, target, false, key);
      assert Present(s, key) ==> !(target <= key);
      assert key + "/" == source ==> key !in s.files;
      assert key in Ancestors(source) ==> Above(key, source) && Present(s, source);
      assert key in Ancestors(target) && key != target ==> Above(key, target);
      assert target <= key && key <= source ==> target <= source;
    }
  }

  lemma SourceIsSpared(s: Tree, source: Key, target: Key, rest: Key)
    requires Closed(s) && IsFolderKey(source) && Clean(target) && IsFolderKey(target)
    requires !(source <= target) && !(target <= source)
    ensures !(target <= source + rest)
    ensures FileAt(Cleared(s, target), source + rest) == FileAt(s, source + rest)
    ensures source + rest in Cleared(s, target).dirs <==> source + rest in s.dirs
  {
    CleanBase(target);
    if target <= source + rest {
      PrefixesCompare(source, target, source + rest);
    }
    assert Base(target) + "/" == target;
    assert source <= source + rest;
    assert source + rest == Base(target) ==> source <= target;
  }

  /** Onto a folder it lies in, the source goes with what the target held: the target gets the source exactly when the
      source held nothing. */
  lemma OntoAnAncestorKeepsNothing(s: Tree, source: Key, target: Key, copy: bool, after: Tree)
    requires Closed(s) && Clean(source) && Clean(target) && IsFolderKey(source) && IsFolderKey(target)
    requires source in s.dirs && target <= source && source != target
    requires Transferred(Cleared(s, target), source, target, copy, after)
    ensures after.files == map key | key in s.files && !(target <= key) && key != Base(target) :: s.files[key]
    ensures HoldsSource(s, source, target, after) <==>
            forall key :: Present(s, key) && source <= key ==> key == source
  {
    var left := Cleared(s, target);
    forall key ensures FileAt(after, key) == FileAt(left, key) {
      assert FileAt(after, key) == FileAfter(left, source, target, copy, key);
      if target <= key {
        assert target <= Origin(source, target, key);
      }
    }
    assert after.files == left.files by {
      forall key
        ensures key in after.files <==> key in left.files
        ensures key in left.files ==> after.files[key] == left.files[key]
      {
        assert FileAt(after, key) == FileAt(left, key);
      }
    }
    forall rest
      ensures FileAt(after, target + rest) == None
      ensures target + rest in after.dirs <==> rest == ""
    {
      assert FileAt(after, target + rest) == FileAt(left, target + rest);
      assert target <= Origin(source, target, target + rest);
      assert target + rest in after.dirs <==> FolderAfter(left, source, target, copy, target + rest);
      assert target + rest == target <==> rest == "";
    }
    OnlyTheFolder(s, source, target, after);
  }

  lemma OnlyTheFolder(s: Tree, source: Key, target: Key, after: Tree)
    requires source in s.dirs && source !in s.files
    requires forall rest :: FileAt(after, target + rest) == None
    requires forall rest :: target + rest in after.dirs <==> rest == ""
    ensures HoldsSource(s, source, target, after) <==>
            forall key :: Present(s, key) && source <= key ==> key == source
  {
    if HoldsSource(s, source, target, after) {
      forall key | Present(s, key) && source <= key ensures key == source {
        var rest := key[|source|..];
        assert source + rest == key;
        assert FileAt(after, target + rest) == FileAt(s, source + rest);
        assert target + rest in after.dirs <==> source + rest in s.dirs;
      }
    }
    if forall key :: Present(s, key) && source <= key ==> key == source {
      forall rest
        ensures FileAt(after, target + rest) == FileAt(s, source + rest)
        ensures target + rest in after.dirs <==> source + rest in s.dirs
      {
        assert FileAt(after, target + rest) == None;
        assert Present(s, source + rest) ==> source + rest == source;
        assert source + rest == source <==> rest == "";
      }
    }
  }

  // ---- the children of a folder ----

  /** What a key contributes below a folder: its first segment, with the slash if there is one. */
  function FirstPart(rest: Key): (part: Key)
    ensures part <= rest && (rest != "" ==> part != "")
    ensures part == rest || IsFolderKey(part)
  {
    if rest == "" then "" else if rest[0] == '/' then "/"
    else
      var part := [rest[0]] + FirstPart(rest[1..]);
      assert |part| > 1 ==> part[|part| - 1] == FirstPart(rest[1..])[|part| - 2];
      part
  }

  function Child(folder: Key, key: Key): (child: Key)
    requires folder <= key
    ensures folder <= child <= key && (key != folder ==> child != folder)
  {
    var child := folder + FirstPart(key[|folder|..]);
    assert key == folder + key[|folder|..];
    child
  }

  predicate IsChild(folder: Key, key: Key) {
    folder <= key && key != folder && Child(folder, key) == key
  }

  lemma {:induction false} FirstPartIsAll(rest: Key)
    ensures FirstPart(rest) == rest <==> forall i :: 0 <= i < |rest| - 1 ==> rest[i] != '/'
  {
    if rest != "" && rest[0] != '/' {
      FirstPartIsAll(rest[1..]);
      assert rest == [rest[0]] + rest[1..];
      assert forall i :: 0 < i < |rest| ==> rest[i] == rest[1..][i - 1];
    } else if rest != "" {
      assert FirstPart(rest) == "/";
    }
  }

  /** A child of a folder is a key that goes on from it, with no slash but at its end. */
  lemma ChildrenAreDirect(folder: Key, key: Key)
    ensures IsChild(folder, key) <==>
            folder <= key && key != folder && forall i :: |folder| <= i < |key| - 1 ==> key[i] != '/'
  {
    if folder <= key {
      var rest := key[|folder|..];
      FirstPartIsAll(rest);
      assert key == folder + rest;
      assert forall i :: 0 <= i < |rest| ==> rest[i] == key[|folder| + i];
      assert Child(folder, key)[|folder|..] == FirstPart(rest);
      if forall i :: 0 <= i < |rest| - 1 ==> rest[i] != '/' {
        forall i | |folder| <= i < |key| - 1 ensures key[i] != '/' {
          assert rest[i - |folder|] == key[i];
        }
      }
    }
  }

  lemma {:induction false} FirstPartAgain(rest: Key)
    ensures FirstPart(FirstPart(rest)) == FirstPart(rest)
  {
    if rest != "" && rest[0] != '/' {
      FirstPartAgain(rest[1..]);
      assert FirstPart(rest)[1..] == FirstPart(rest[1..]);
    }
  }

  /** The child a key lies at or under is in the tree, and is a child. */
  lemma ChildIsPresent(s: Tree, folder: Key, key: Key)
    requires Closed(s) && Present(s, key) && folder <= key && key != folder
    ensures var child := Child(folder, key);
      IsChild(folder, child) && (if IsFolderKey(child) then child in s.dirs else child in s.files)
  {
    var child := Child(folder, key);
    FirstPartAgain(key[|folder|..]);
    assert child[|folder|..] == FirstPart(key[|folder|..]);
    assert child != key ==> Above(child, key);
  }

  /** The folder store: one tree, and its operations. */
  class FolderStore {
    var files: map<Key, Data>
    var dirs: set<Key>

    ghost function Now(): Tree
      reads this
    {
      Tree(files, dirs)
    }

    constructor ()
      ensures Now() == Tree(map[], {}) && Closed(Now())
    {
      files, dirs := map[], {};
    }

    method ListAll(prefix: Key) returns (entries: set<Key>)
      ensures forall key :: key in entries <==> Present(Now(), key) && prefix <= key
    {
      entries := (set key | key in files && prefix <= key) + (set key | key in dirs && prefix <= key);
    }

    method Find(key: Key) returns (kind: Kind)
      ensures kind == Lookup(Now(), key)
    {
      kind := Lookup(Tree(files, dirs), key);
    }

    method Mkdir(key: Key) returns (ok: bool)
      requires Closed(Now()) && Clean(key)
      modifies this
      ensures Closed(Now())
      ensures ok <==> MakeFolder(old(Now()), key).Some?
      ensures Now() == if ok then MakeFolder(old(Now()), key).value else old(Now())
    {
      var made := MakeFolder(Tree(files, dirs), key);
      ok := made.Some?;
      if ok {
        MakeFolderKeeps(Now(), key);
        dirs := made.value.dirs;
      }
    }

    method Write(key: Key, data: Data) returns (ok: bool)
      requires Closed(Now()) && Clean(key) && !IsFolderKey(key)
      modifies this
      ensures Closed(Now())
      ensures ok <==> PutFile(old(Now()), key, data).Some?
      ensures Now() == if ok then PutFile(old(Now()), key, data).value else old(Now())
    {
      var put := PutFile(Tree(files, dirs), key, data);
      ok := put.Some?;
      if ok {
        PutFileKeeps(Now(), key, data);
        files, dirs := put.value.files, put.value.dirs;
      }
    }

    method Delete(key: Key) returns (removal: Removal)
      requires Closed(Now())
      modifies this
      ensures Closed(Now())
      ensures removal == Remove(old(Now()), key)
      ensures Now() == if removal.Removed? then removal.tree else old(Now())
    {
      removal := Remove(Tree(files, dirs), key);
      if removal.Removed? {
        RemoveKeeps(Now(), key);
        files, dirs := removal.tree.files, removal.tree.dirs;
      }
    }

    method Move(src: Key, dst: Key) returns (ok: bool)
      requires Closed(Now()) && Clean(dst) && !IsFolderKey(dst)
      modifies this
      ensures Closed(Now())
      ensures ok <==> MoveFile(old(Now()), src, dst).Some?
      ensures Now() == if ok then MoveFile(old(Now()), src, dst).value else old(Now())
    {
      var moved := MoveFile(Tree(files, dirs), src, dst);
      ok := moved.Some?;
      if ok {
        MoveFileKeeps(Now(), src, dst);
        files, dirs := moved.value.files, moved.value.dirs;
      }
    }

    // ---- the handlers ----

    method DeleteFiles(entries: set<Key>)
      requires Closed(Now())
      requires forall key :: key in entries ==> Present(Now(), key)
      modifies this
      ensures Closed(Now()) && dirs == old(dirs)
      ensures files == map key | key in old(files) && key !in entries :: old(files)[key]
    {
      var left := set key | key in entries && !IsFolderKey(key);
      while left != {}
        invariant Closed(Now()) && dirs == old(dirs)
        invariant forall key :: key in left ==> key in entries && key in files
        invariant files == map key | key in old(files) && (key in left || key !in entries) :: old(files)[key]
      {
        var key :| key in left;
        left := left - {key};
        CleanBase(key);
        var _ := Delete(key);
      }
    }

    method Longest(keys: set<Key>) returns (longest: Key)
      requires keys != {}
      ensures longest in keys && forall key :: key in keys ==> |key| <= |longest|
    {
      longest :| longest in keys;
      var left := keys - {longest};
      while left != {}
        invariant left <= keys && longest in keys
        invariant forall key :: key in keys && key !in left ==> |key| <= |longest|
      {
        var key :| key in left;
        left := left - {key};
        if |key| > |longest| {
          longest := key;
        }
      }
    }

    /** Removes the listed folders, the longest names first: none is asked to go while it still holds something. */
    method DeleteFolders(entries: set<Key>, folder: Key) returns (refused: bool)
      requires Closed(Now())
      requires forall key :: key in entries <==> key in dirs && folder <= key
      requires forall key :: key in files ==> !(folder <= key)
      modifies this
      ensures Closed(Now()) && files == old(files) && dirs == old(dirs) - entries && !refused
    {
      refused := false;
      var left := entries;
      while left != {}
        invariant Closed(Now()) && files == old(files) && left <= entries && dirs == old(dirs) - (entries - left)
        invariant !refused
      {
        var key := Longest(left);
        CleanBase(key);
        LongestIsEmpty(Now(), left, key);
        left := left - {key};
        var removal := Delete(key);
        refused := refused || removal.NotEmpty?;
      }
    }

    method DeleteTree(folder: Key) returns (refused: bool)
      requires Closed(Now()) && Clean(folder) && IsFolderKey(folder)
      modifies this
      ensures Closed(Now()) && !refused
      ensures Now() == Cleared(old(Now()), folder)
    {
      var entries := ListAll(folder);
      DeleteFiles(entries);
      assert files == WithoutTree(old(Now()), folder).files;
      refused := DeleteFolders((set key | key in entries && IsFolderKey(key)), folder);
      assert Now() == WithoutTree(old(Now()), folder);
      ClearedAtLast(old(Now()), folder);
      if folder !in entries {
        var _ := Delete(folder);
      }
    }
  
    /** Carries one entry of the source folder over. */
    method Carry(ghost s: Tree, source: Key, target: Key, copy: bool, ghost done: set<Key>, key: Key)
      requires Closed(Now()) && Ready(s, source, target)
      requires FilesCarried(s, source, target, copy, done, Now()) && FoldersCarried(s, source, target, done, Now())
      requires Present(s, key) && key !in done && source <= key && source != key
      modifies this
      ensures Closed(Now())
      ensures FilesCarried(s, source, target, copy, done + {key}, Now())
      ensures FoldersCarried(s, source, target, done + {key}, Now())
    {
      var image := target + key[|source|..];
      if IsFolderKey(key) {
        CarryFolder(s, source, target, copy, done, Now(), key);
        var _ := Mkdir(image);
      } else {
        FileCanBeCarried(s, source, target, copy, done, Now(), key);
        CarryFile(s, source, target, copy, done, Now(), key);
        if copy {
          var _ := Write(image, files[key]);
        } else {
          var _ := Move(key, image);
        }
      }
    }

    method CarryAll(source: Key, target: Key, copy: bool, entries: set<Key>, ghost s: Tree)
      requires Closed(Now()) && Ready(s, source, target)
      requires FilesCarried(s, source, target, copy, {}, Now()) && FoldersCarried(s, source, target, {}, Now())
      requires forall key :: key in entries <==> Present(s, key) && source <= key && source != key
      modifies this
      ensures Closed(Now())
      ensures FilesCarried(s, source, target, copy, entries, Now())
      ensures FoldersCarried(s, source, target, entries, Now())
    {
      var left := entries;
      assert entries - left == {};
      while left != {}
        invariant Closed(Now()) && left <= entries
        invariant FilesCarried(s, source, target, copy, entries - left, Now())
        invariant FoldersCarried(s, source, target, entries - left, Now())
      {
        var key :| key in left;
        Carry(s, source, target, copy, entries - left, key);
        assert entries - left + {key} == entries - (left - {key});
        left := left - {key};
      }
      assert entries - left == entries;
    }

    method TransferTree(source: Key, target: Key, copy: bool) returns (ok: bool)
      requires Closed(Now()) && Clean(source) && Clean(target) && IsFolderKey(source) && IsFolderKey(target)
      requires !(source <= target) && (source in dirs || target <= source)
      requires forall key :: Present(Now(), key) ==> !(target <= key)
      modifies this
      ensures Closed(Now())
      ensures ok <==> !Blocked(old(Now()), target)
      ensures ok ==> Transferred(old(Now()), source, target, copy, Now())
      ensures !ok ==> Now() == old(Now())
    {
      ghost var s := Now();
      CleanBase(target);
      var entries := ListAll(source);
      ok := Mkdir(target);
      if !ok {
        return;
      }
      NothingCarried(s, source, target, copy);
      entries := entries - {source};
      CarryAll(source, target, copy, entries, s);
      if copy {
        CopyIsComplete(s, source, target, entries, Now());
      } else {
        MoveIsComplete(s, source, target, entries, Now());
        var _ := DeleteTree(source);
      }
    }

    method TransferFile(src: Key, dst: Key, copy: bool) returns (ok: bool)
      requires Closed(Now()) && Clean(dst) && !IsFolderKey(dst) && src in files
      modifies this
      ensures Closed(Now())
      ensures ok <==> !Blocked(old(Now()), dst) && dst + "/" !in old(dirs)
      ensures ok ==> FileTransferred(old(Now()), src, dst, copy, Now())
      ensures !ok ==> Now() == old(Now())
    {
      if copy {
        ok := Write(dst, files[src]);
      } else {
        ok := Move(src, dst);
      }
    }

    /** A folder takes the place of whatever the destination was. */
    method TransferFolder(source: Key, dest: Key, copy: bool, found: Kind) returns (ok: bool)
      requires Closed(Now()) && Clean(source) && IsFolderKey(source) && Clean(dest) && source in dirs
      requires found == Lookup(Now(), dest) && !(source <= Folder(dest))
      modifies this
      ensures Closed(Now())
      ensures ok <==> !(found.Missing? && Blocked(old(Now()), Folder(dest)))
      ensures ok ==> Transferred(Cleared(old(Now()), Folder(dest)), source, Folder(dest), copy, Now())
      ensures !ok ==> Now() == old(Now())
    {
      var target := Folder(dest);
      CleanBase(dest);
      CleanBase(target);
      LookupFinds(Now(), dest);
      if found != Missing {
        ClearedIsReady(Now(), source, target, dest);
        var _ := DeleteTree(target);
      } else if !Blocked(Now(), target) {
        NothingToClear(Now(), target);
      }
      ok := TransferTree(source, target, copy);
    }

    /** Moves or copies what the key names, once nothing in the request forbids it. */
    method Serve(key: Key, dest: Key, copy: bool, kind: Kind, found: Kind) returns (ok: bool)
      requires Closed(Now()) && Clean(key) && Clean(dest)
      requires kind == Lookup(Now(), key) && kind != Missing && found == Lookup(Now(), dest)
      requires kind.AFolder? ==> !(Folder(key) <= Folder(dest))
      modifies this
      ensures Closed(Now())
      ensures ok <==> !Obstructed(old(Now()), key, dest)
      ensures ok ==> Served(old(Now()), key, dest, copy, if found.Missing? then Created else NoContent, Now())
      ensures !ok ==> Now() == old(Now())
    {
      CleanBase(dest);
      CleanBase(key);
      LookupFinds(Now(), key);
      if kind.AFile? {
        ok := TransferFile(key, Base(dest), copy);
      } else {
        CleanBase(Folder(key));
        ok := TransferFolder(Folder(key), dest, copy, found);
      }
    }

    /** MOVE and COPY. */
    method Transfer(key: Key, dest: Key, overwrite: bool, copy: bool) returns (status: Status)
      requires Closed(Now()) && (key == "" || Clean(key)) && (dest == "" || Clean(dest))
      modifies this
      ensures Closed(Now())
      ensures status == Answer(old(Now()), key, dest, overwrite)
      ensures status in {Created, NoContent} ==> Served(old(Now()), key, dest, copy, status, Now())
      ensures status !in {Created, NoContent} ==> Now() == old(Now())
    {
      if key == "" {
        return Forbidden;
      }
      if dest == "" {
        return BadRequest;
      }
      var kind := Find(key);
      if kind.Missing? {
        return NotFound;
      }
      var found := Find(dest);
      if found != Missing && !overwrite {
        return Exists;
      }
      if kind.AFolder? && Folder(key) <= Folder(dest) {
        return Forbidden;
      }
      var ok := Serve(key, dest, copy, kind, found);
      status := if !ok then Failure else if found.Missing? then Created else NoContent;
    }

    /** The children that PROPFIND lists: exactly the folders and files directly in the folder. */
    method Children(folder: Key) returns (children: set<Key>)
      requires Closed(Now())
      ensures forall key :: key in children <==> Present(Now(), key) && IsChild(folder, key)
    {
      var entries := ListAll(folder);
      var left := entries - {folder};
      ghost var all := left;
      children := {};
      while left != {}
        invariant left <= all
        invariant forall key :: key in children ==> Present(Now(), key) && IsChild(folder, key)
        invariant forall key :: key in all && key !in left ==> Child(folder, key) in children
      {
        var key :| key in left;
        ChildIsPresent(Now(), folder, key);
        children := children + {Child(folder, key)};
        left := left - {key};
      }
      forall key | Present(Now(), key) && IsChild(folder, key) ensures key in children {
        assert key in all;
      }
    }

    /** DELETE. */
    method DoDelete(key: Key) returns (status: Status)
      requires Closed(Now()) && (key == "" || Clean(key))
      modifies this
      ensures Closed(Now())
      ensures status == if key == "" then Forbidden
                        else if Lookup(old(Now()), key).Missing? then NotFound else NoContent
      ensures Now() == if status != NoContent then old(Now())
                       else if Lookup(old(Now()), key).AFile? then old(Now()).(files := old(files) - {key})
                       else Cleared(old(Now()), Folder(key))
    {
      if key == "" {
        return Forbidden;
      }
      var kind := Find(key);
      if kind.Missing? {
        return NotFound;
      }
      CleanBase(key);
      LookupFinds(Now(), key);
      if kind.AFile? {
        var _ := Delete(key);
      } else {
        var _ := DeleteTree(Folder(key));
      }
      status := NoContent;
    }

    /** MKCOL with an empty body. */
    method DoMkcol(key: Key) returns (status: Status)
      requires Closed(Now()) && (key == "" || Clean(key))
      modifies this
      ensures Closed(Now())
      ensures status == if key == "" then Created
                        else if !Lookup(old(Now()), key).Missing? then NotAllowed
                        else if Blocked(old(Now()), Folder(key)) then Failure else Created
      ensures files == old(files)
      ensures dirs == if status == Created && key != "" then old(dirs) + Ancestors(Folder(key)) else old(dirs)
    {
      if key == "" {
        return Created;
      }
      var kind := Find(key);
      if kind != Missing {
        return NotAllowed;
      }
      CleanBase(key);
      CleanBase(Folder(key));
      var ok := Mkdir(Folder(key));
      status := if ok then Created else Failure;
    }
  }
}
