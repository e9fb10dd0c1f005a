/** Which paths are notes, and the free name a new note takes (mindin/notes.py:60-75, 224-232,
    mindin/backends/__init__.py:74-79, mindin/schema.py:289-293). */
module NoteKeys {
  import opened Texts
  import opened NoteTools
  import opened Close

  const SCHEMA_KEY: Key := ".vault/schema.yml"

  datatype Checked = Ok(key: Key) | NotAPath | DotSegment | SchemaFile | NotANote

  /** The segments of a path, split at every slash. */
  function Split(path: Key): (segments: seq<string>)
    ensures segments != []
  {
    if path == "" then [""]
    else
      var rest := Split(path[1..]);
      if path[0] == '/' then [""] + rest else [[path[0]] + rest[0]] + rest[1..]
  }

  predicate Hidden(segment: string) {
    StartsWith(segment, ".")
  }

  predicate SomeHidden(path: Key) {
    exists segment :: segment in Split(path) && Hidden(segment)
  }

  predicate IsVaultKey(key: Key) {
    key == SCHEMA_KEY || (!SomeHidden(key) && (EndsWith(key, ".md") || EndsWith(key, ".base")))
  }

  /** A key of the listing that the index takes in. */
  predicate IsListedNote(key: Key) {
    IsVaultKey(key) && EndsWith(key, ".md")
  }

  predicate HasDrive(path: Key) {
    |path| >= 2 && path[1] == ':' && ('A' <= path[0] <= 'Z' || 'a' <= path[0] <= 'z')
  }

  function NoteKey(path: Key, readable: bool): Checked {
    if readable && path == SCHEMA_KEY then Ok(path)
    else if path == "" || '\0' in path || '\\' in path || path[0] == '/' || HasDrive(path) then NotAPath
    else if exists segment :: segment in Split(path) && segment in ["", ".", ".."] then NotAPath
    else if path == SCHEMA_KEY then SchemaFile
    else if SomeHidden(path) then DotSegment
    else if EndsWith(path, ".md") || (readable && EndsWith(path, ".base")) then Ok(path)
    else NotANote
  }

  /** The folder names a schema may declare. */
  predicate IsFolder(folder: Key) {
    forall segment :: segment in Split(folder) ==> segment != "" && !Hidden(segment)
  }

  lemma {:induction false} SplitAtSlash(a: Key, b: Key)
    ensures Split(a + "/" + b) == Split(a) + Split(b)
  {
    var path := a + "/" + b;
    if a == "" {
      assert path[1..] == b;
    } else {
      assert path[1..] == a[1..] + "/" + b;
      SplitAtSlash(a[1..], b);
    }
  }

  lemma {:induction false} OneSegment(name: string)
    requires '/' !in name
    ensures Split(name) == [name]
  {
    if name != "" {
      OneSegment(name[1..]);
      assert name == [name[0]] + name[1..];
    }
  }

  lemma {:induction false} BaseNameIsASegment(path: Key)
    ensures '/' !in BaseName(path) && BaseName(path) == Split(path)[|Split(path)| - 1]
  {
    if path == "" {
    } else if path[|path| - 1] == '/' {
      var front := path[..|path| - 1];
      assert path == front + "/" + "";
      SplitAtSlash(front, "");
    } else {
      var n := |path| - 1;
      BaseNameIsASegment(path[..n]);
      LastCharacter(path[..n], path[n]);
      assert path == path[..n] + [path[n]];
    }
  }

  lemma {:induction false} LastCharacter(path: Key, c: char)
    requires c != '/'
    ensures var was, now := Split(path), Split(path + [c]);
      |now| == |was| && now[|now| - 1] == was[|was| - 1] + [c]
  {
    if path != "" {
      LastCharacter(path[1..], c);
      assert (path + [c])[1..] == path[1..] + [c];
    } else {
      assert (path + [c])[1..] == "";
    }
  }

  /** Every path the note tools accept is a note that the listing shows: what they index, a sync finds again. */
  lemma AcceptedIsListed(path: Key)
    requires NoteKey(path, false).Ok?
    ensures NoteKey(path, false) == Ok(path) && IsListedNote(path) && path != SCHEMA_KEY
    ensures '/' !in Stem(path) && Stem(path) != "" && !Hidden(Stem(path))
  {
    BaseNameIsASegment(path);
    var name := BaseName(path);
    assert name in Split(path) && !Hidden(name) && name != ".md" && name !in ["", ".", ".."];
  }

  /** A path without a character or a beginning that no vault path has. */
  predicate IsPlain(path: Key) {
    path != "" && '\0' !in path && '\\' !in path && path[0] != '/' && !HasDrive(path)
  }

  predicate HasDots(path: Key) {
    "." in Split(path) || ".." in Split(path)
  }

  predicate HasOddSegment(path: Key) {
    exists segment :: segment in Split(path) && segment in ["", ".", ".."]
  }

  lemma OddSegments(path: Key)
    ensures HasOddSegment(path) <==> "" in Split(path) || HasDots(path)
    ensures HasDots(path) ==> SomeHidden(path)
  {
    assert Hidden(".") && Hidden("..");
    if HasOddSegment(path) {
      var segment :| segment in Split(path) && segment in ["", ".", ".."];
      assert segment == "" || segment == "." || segment == "..";
    } else {
      assert forall segment :: segment in Split(path) ==> segment !in ["", ".", ".."];
      assert "" in ["", ".", ".."] && "." in ["", ".", ".."] && ".." in ["", ".", ".."];
    }
  }

  lemma WritableExactly(path: Key)
    requires path != SCHEMA_KEY
    ensures NoteKey(path, false).Ok? <==> IsListedNote(path) && IsPlain(path) && "" !in Split(path)
  {
    OddSegments(path);
  }

  lemma ReadableExactly(path: Key)
    requires path != SCHEMA_KEY
    ensures NoteKey(path, true).Ok? <==> IsVaultKey(path) && IsPlain(path) && "" !in Split(path)
  {
    OddSegments(path);
  }

  /** The tools that write accept exactly the notes of the listing that are plain paths without empty segments, and those
      that read the schema file and the other listed files as well. */
  lemma AcceptedExactly(path: Key)
    ensures NoteKey(path, false).Ok? <==> IsListedNote(path) && IsPlain(path) && "" !in Split(path)
    ensures NoteKey(path, true).Ok? <==>
            path == SCHEMA_KEY || (IsVaultKey(path) && IsPlain(path) && "" !in Split(path))
  {
    if path == SCHEMA_KEY {
      SchemaIsNoNote(path);
    } else {
      WritableExactly(path);
      ReadableExactly(path);
    }
  }

  lemma SchemaIsNoNote(path: Key)
    requires path == SCHEMA_KEY
    ensures !EndsWith(path, ".md") && !EndsWith(path, ".base")
  {
    var n := |path|;
    assert path[n - 1] == 'l';
  }

  lemma NoneIsEmpty(folder: Key, stem: Key, number: nat)
    requires IsFolder(folder) && '/' !in stem
    ensures "" !in Split(Candidate(folder, stem, number))
  {
    DecimalHasNoSlash(number);
    var name := if number <= 1 then stem + ".md" else stem + "-" + Decimal(number) + ".md";
    assert Candidate(folder, stem, number) == folder + "/" + name;
    SplitAtSlash(folder, name);
    OneSegment(name);
  }

  lemma StaysPlain(folder: Key, stem: Key, number: nat)
    requires IsPlain(folder) && '\0' !in stem && '\\' !in stem
    ensures IsPlain(Candidate(folder, stem, number))
  {
    var key := Candidate(folder, stem, number);
    assert key[0] == folder[0];
    if |folder| >= 2 {
      assert key[1] == folder[1];
    } else {
      assert key[1] == '/';
    }
  }

  /** Every name tried in a plain folder of the schema is one the tools accept. */
  lemma CandidateIsAccepted(folder: Key, path: Key, number: nat)
    requires IsFolder(folder) && IsPlain(folder) && NoteKey(path, false).Ok?
    ensures NoteKey(Candidate(folder, Stem(path), number), false).Ok?
  {
    CandidateIsListed(folder, path, number);
    AcceptedExactly(path);
    AcceptedIsListed(path);
    StemIsWithin(path);
    NoneIsEmpty(folder, Stem(path), number);
    StaysPlain(folder, Stem(path), number);
    AcceptedExactly(Candidate(folder, Stem(path), number));
  }

  lemma {:induction false} StemIsWithin(path: Key)
    ensures forall c :: c in BaseName(path) ==> c in path
    ensures forall c :: c in Stem(path) ==> c in path
  {
    if path != "" && path[|path| - 1] != '/' {
      StemIsWithin(path[..|path| - 1]);
    }
  }

  /** Every name tried in a folder of the schema, for the note at an accepted path, is a note of that folder. */
  lemma CandidateIsListed(folder: Key, path: Key, number: nat)
    requires IsFolder(folder) && NoteKey(path, false).Ok?
    ensures IsListedNote(Candidate(folder, Stem(path), number))
  {
    AcceptedIsListed(path);
    DecimalHasNoSlash(number);
    var name := if number <= 1 then Stem(path) + ".md" else Stem(path) + "-" + Decimal(number) + ".md";
    assert Candidate(folder, Stem(path), number) == folder + "/" + name;
    SplitAtSlash(folder, name);
    OneSegment(name);
    assert name[0] == Stem(path)[0];
  }

  lemma DecimalHasNoSlash(n: nat)
    ensures '/' !in Decimal(n)
  {
  }

  /** Two different numbers never give one name. */
  lemma CandidatesDiffer(folder: Key, stem: Key, m: nat, n: nat)
    requires 1 <= m < n
    ensures Candidate(folder, stem, m) != Candidate(folder, stem, n)
  {
    var head, a, b := folder + "/" + stem, Candidate(folder, stem, m), Candidate(folder, stem, n);
    if m == 1 {
      assert |a| < |b|;
    } else {
      assert a[|head| + 1..|a| - 3] == Decimal(m) && b[|head| + 1..|b| - 3] == Decimal(n);
      if Decimal(m) == Decimal(n) {
        DecimalInjective(m, n);
      }
    }
  }

  /** The names before a number. */
  ghost function Before(folder: Key, stem: Key, number: nat): set<Key> {
    if number <= 1 then {} else Before(folder, stem, number - 1) + {Candidate(folder, stem, number - 1)}
  }

  lemma {:induction false} BeforeIsAll(folder: Key, stem: Key, number: nat, key: Key)
    ensures key in Before(folder, stem, number) <==>
            exists m: nat :: 1 <= m < number && Candidate(folder, stem, m) == key
  {
    if number > 1 {
      BeforeIsAll(folder, stem, number - 1, key);
    }
  }

  lemma {:induction false} BeforeSize(folder: Key, stem: Key, number: nat)
    requires number >= 1
    ensures |Before(folder, stem, number)| == number - 1
  {
    if number > 1 {
      BeforeSize(folder, stem, number - 1);
      var newest := Candidate(folder, stem, number - 1);
      BeforeIsAll(folder, stem, number - 1, newest);
      forall m: nat | 1 <= m < number - 1 ensures Candidate(folder, stem, m) != newest {
        CandidatesDiffer(folder, stem, m, number - 1);
      }
    }
  }

  /** The search of `_free_key`: the first name, in order, that is neither listed nor lost to another writer. */
  method FreeKey(folder: Key, stem: Key, listed: set<Key>, lost: set<Key>) returns (key: Key)
    ensures FirstFree(listed + lost, folder, stem, key)
  {
    var taken := listed + lost;
    var suffix: nat := 2;
    key := folder + "/" + stem + ".md";
    while key in taken
      invariant suffix >= 2 && key == Candidate(folder, stem, suffix - 1)
      invariant Before(folder, stem, suffix - 1) <= taken
      decreases |taken| + 2 - suffix
    {
      BeforeSize(folder, stem, suffix);
      SubsetSize(Before(folder, stem, suffix), taken);
      key := folder + "/" + stem + "-" + Decimal(suffix) + ".md";
      suffix := suffix + 1;
    }
    forall m: nat | 1 <= m < suffix - 1 ensures Candidate(folder, stem, m) in taken {
      BeforeIsAll(folder, stem, suffix - 1, Candidate(folder, stem, m));
    }
  }

  lemma {:induction false} SubsetSize<T>(a: set<T>, b: set<T>)
    requires a <= b
    ensures |a| <= |b|
  {
    if a != {} {
      var x :| x in a;
      SubsetSize(a - {x}, b - {x});
    }
  }
}
