/** Object names of a sealed vault: the encrypted path in unpadded base64url (section 5 of RFC 4648), cut into
    segments of 200 characters (mindin/backends/sealed.py:66-81). */
module SealedNames {
  import opened Texts

  type Byte = b: nat | b < 256

  const MAX_PATH_BYTES: nat := 512
  const SEGMENT_CHARS: nat := 200
  const TAG_BYTES: nat := 16

  /** The name cipher and the UTF-8 codec. */
  datatype Names = Names(
    utf8: string -> seq<Byte>, text: seq<Byte> -> Option<string>,
    encrypt: seq<Byte> -> seq<Byte>, decrypt: seq<Byte> -> Option<seq<Byte>>)

  /** Decoding inverts encoding, decryption inverts encryption, and AES-SIV puts its tag in front. */
  ghost predicate Lawful(n: Names) {
    && (forall path :: n.text(n.utf8(path)) == Some(path))
    && n.utf8("") == []
    && (forall raw :: n.decrypt(n.encrypt(raw)) == Some(raw))
    && (forall raw :: |n.encrypt(raw)| == |raw| + TAG_BYTES)
  }

  datatype Named = Name(key: string) | VaultRoot | TooLong

  // ---- base64url ----

  const ALPHABET := "ABCDEFGHIJKLMNOPQRSTUVWXYZabcdefghijklmnopqrstuvwxyz0123456789-_"

  function Char(v: nat): char
    requires v < 64
  {
    if v < 26 then 'A' + v as char
    else if v < 52 then 'a' + (v - 26) as char
    else if v < 62 then '0' + (v - 52) as char
    else if v == 62 then '-' else '_'
  }

  /** The value of a character; '+' and '/' keep the value they have in plain base64. */
  function Value(c: char): Option<nat> {
    if 'A' <= c <= 'Z' then Some((c - 'A') as nat)
    else if 'a' <= c <= 'z' then Some((c - 'a') as nat + 26)
    else if '0' <= c <= '9' then Some((c - '0') as nat + 52)
    else if c == '-' || c == '+' then Some(62)
    else if c == '_' || c == '/' then Some(63)
    else None
  }

  lemma ValueOfChar(v: nat)
    requires v < 64
    ensures Value(Char(v)) == Some(v) && Char(v) != '/' && Char(v) != '=' && Char(v) < 128 as char
  {
  }

  function Encode(b: seq<Byte>): string {
    if b == [] then ""
    else if |b| == 1 then [Char(b[0] / 4), Char(b[0] % 4 * 16), '=', '=']
    else if |b| == 2 then [Char(b[0] / 4), Char(b[0] % 4 * 16 + b[1] / 16), Char(b[1] % 16 * 4), '=']
    else [Char(b[0] / 4), Char(b[0] % 4 * 16 + b[1] / 16), Char(b[1] % 16 * 4 + b[2] / 64), Char(b[2] % 64)]
         + Encode(b[3..])
  }

  function StripPadding(s: string): string {
    if s != "" && s[|s| - 1] == '=' then StripPadding(s[..|s| - 1]) else s
  }

  function Equals(n: nat): string {
    seq(n, _ => '=')
  }

  function Cons(b: Byte, rest: Option<seq<Byte>>): Option<seq<Byte>> {
    if rest.Some? then Some([b] + rest.value) else None
  }

  /** The library's lenient decoder: characters outside the alphabet are skipped, a finished padding ends the data, and
      an unfinished group is an error. `quad` is the place in the group of four, `left` the bits carried over. */
  function Decode(s: string, quad: nat, left: nat, pads: nat): Option<seq<Byte>>
    requires quad < 4 && (quad == 1 ==> left < 64) && (quad == 2 ==> left < 16) && (quad == 3 ==> left < 4)
    decreases |s|
  {
    if s == "" then if quad == 0 then Some([]) else None
    else if s[0] == '=' then
      if quad >= 2 && quad + pads + 1 >= 4 then Some([])
      else Decode(s[1..], quad, left, if quad >= 2 then pads + 1 else pads)
    else
      match Value(s[0])
      case None => Decode(s[1..], quad, left, pads)
      case Some(v) =>
        ValueBounded(s[0]);
        if quad == 0 then Decode(s[1..], 1, v, 0)
        else if quad == 1 then Cons(left * 4 + v / 16, Decode(s[1..], 2, v % 16, 0))
        else if quad == 2 then Cons(left * 16 + v / 4, Decode(s[1..], 3, v % 4, 0))
        else Cons(left * 64 + v, Decode(s[1..], 0, 0, 0))
  }

  lemma ValueBounded(c: char)
    ensures Value(c).Some? ==> Value(c).value < 64
  {
  }

  /** The characters that mean something: those of both base64 alphabets. */
  predicate IsData(c: char) {
    'A' <= c <= 'Z' || 'a' <= c <= 'z' || '0' <= c <= '9' || c == '-' || c == '_' || c == '+' || c == '/'
  }

  /** Anything else is skipped. */
  lemma JunkIsSkipped(c: char, s: string, quad: nat, left: nat, pads: nat)
    requires quad < 4 && (quad == 1 ==> left < 64) && (quad == 2 ==> left < 16) && (quad == 3 ==> left < 4)
    requires c != '='
    ensures Value(c).Some? <==> IsData(c)
    ensures !IsData(c) ==> Decode([c] + s, quad, left, pads) == Decode(s, quad, left, pads)
  {
    assert ([c] + s)[1..] == s;
  }

  /** A name without padding decodes exactly when its groups of four are whole. */
  lemma {:induction false} UnfinishedIsAnError(s: string, quad: nat, left: nat, pads: nat)
    requires quad < 4 && (quad == 1 ==> left < 64) && (quad == 2 ==> left < 16) && (quad == 3 ==> left < 4)
    requires forall i :: 0 <= i < |s| ==> IsData(s[i])
    ensures Decode(s, quad, left, pads).Some? <==> (quad + |s|) % 4 == 0
  {
    if s != "" {
      var rest := s[1..];
      ValueBounded(s[0]);
      JunkIsSkipped(s[0], rest, quad, left, pads);
      var v := Value(s[0]).value;
      if quad == 0 {
        UnfinishedIsAnError(rest, 1, v, 0);
      } else if quad == 1 {
        UnfinishedIsAnError(rest, 2, v % 16, 0);
      } else if quad == 2 {
        UnfinishedIsAnError(rest, 3, v % 4, 0);
      } else {
        UnfinishedIsAnError(rest, 0, 0, 0);
      }
    }
  }

  predicate Ascii(s: string) {
    forall i :: 0 <= i < |s| ==> s[i] < 128 as char
  }

  // ---- names ----

  function Segments(token: string): seq<string>
    decreases |token|
  {
    if token == "" then []
    else if |token| <= SEGMENT_CHARS then [token]
    else [token[..SEGMENT_CHARS]] + Segments(token[SEGMENT_CHARS..])
  }

  function Joined(segments: seq<string>): string {
    if segments == [] then "" else if |segments| == 1 then segments[0]
    else segments[0] + "/" + Joined(segments[1..])
  }

  function WithoutSlashes(s: string): string {
    if s == "" then "" else (if s[0] == '/' then "" else [s[0]]) + WithoutSlashes(s[1..])
  }

  function Token(n: Names, raw: seq<Byte>): string {
    StripPadding(Encode(n.encrypt(raw)))
  }

  function ObjectKey(n: Names, path: string): Named {
    var raw := n.utf8(path);
    if raw == [] then VaultRoot
    else if |raw| > MAX_PATH_BYTES then TooLong
    else Name(Joined(Segments(Token(n, raw))))
  }

  function PathOf(n: Names, key: string): Option<string> {
    var token := WithoutSlashes(key);
    var padded := token + Equals((4 - |token| % 4) % 4);
    if !Ascii(padded) then None
    else
      var sealed := Decode(padded, 0, 0, 0);
      if sealed.None? then None
      else
        var raw := n.decrypt(sealed.value);
        if raw.None? then None else n.text(raw.value)
  }

  // ---- the round trip ----

  predicate InAlphabet(s: string) {
    forall i :: 0 <= i < |s| ==> Plain(s[i])
  }

  predicate Plain(c: char) {
    c != '/' && c != '=' && c < 128 as char
  }

  predicate Holds(c: char, v: nat) {
    c != '=' && v < 64 && Value(c) == Some(v)
  }

  /** One data character, at each place in its group. */
  lemma DecodeFirst(s: string, v: nat)
    requires s != "" && Holds(s[0], v)
    ensures Decode(s, 0, 0, 0) == Decode(s[1..], 1, v, 0)
  {
  }

  lemma DecodeSecond(s: string, v: nat, left: nat)
    requires s != "" && Holds(s[0], v) && left < 64
    ensures Decode(s, 1, left, 0) == Cons(left * 4 + v / 16, Decode(s[1..], 2, v % 16, 0))
  {
  }

  lemma DecodeThird(s: string, v: nat, left: nat)
    requires s != "" && Holds(s[0], v) && left < 16
    ensures Decode(s, 2, left, 0) == Cons(left * 16 + v / 4, Decode(s[1..], 3, v % 4, 0))
  {
  }

  lemma DecodeFourth(s: string, v: nat, left: nat)
    requires s != "" && Holds(s[0], v) && left < 4
    ensures Decode(s, 3, left, 0) == Cons(left * 64 + v, Decode(s[1..], 0, 0, 0))
  {
  }

  /** A first character and the high bits of a second give the first byte. */
  lemma FirstByte(s: string, a: Byte, high: nat)
    requires |s| >= 2 && high < 16 && Holds(s[0], a / 4) && Holds(s[1], a % 4 * 16 + high)
    ensures Decode(s, 0, 0, 0) == Cons(a, Decode(s[2..], 2, high, 0))
  {
    assert s[1..][1..] == s[2..];
    DecodeFirst(s, a / 4);
    DecodeSecond(s[1..], a % 4 * 16 + high, a / 4);
  }

  lemma SecondByte(s: string, b: Byte, high: nat)
    requires s != "" && high < 4 && Holds(s[0], b % 16 * 4 + high)
    ensures Decode(s, 2, b / 16, 0) == Cons(b, Decode(s[1..], 3, high, 0))
  {
    DecodeThird(s, b % 16 * 4 + high, b / 16);
  }

  lemma ThirdByte(s: string, c: Byte)
    requires s != "" && Holds(s[0], c % 64)
    ensures Decode(s, 3, c / 64, 0) == Cons(c, Decode(s[1..], 0, 0, 0))
  {
    DecodeFourth(s, c % 64, c / 64);
  }

  lemma CharHolds(v: nat)
    requires v < 64
    ensures Holds(Char(v), v) && Plain(Char(v))
  {
    ValueOfChar(v);
  }

  /** Four characters give three bytes back. */
  lemma GroupDecodes(s: string, a: Byte, b: Byte, c: Byte)
    requires |s| >= 4 && Holds(s[0], a / 4) && Holds(s[1], a % 4 * 16 + b / 16)
    requires Holds(s[2], b % 16 * 4 + c / 64) && Holds(s[3], c % 64)
    ensures Decode(s, 0, 0, 0) == Cons(a, Cons(b, Cons(c, Decode(s[4..], 0, 0, 0))))
  {
    FirstByte(s, a, b / 16);
    SecondByte(s[2..], b, c / 64);
    assert s[2..][1..] == s[3..] && s[3..][1..] == s[4..];
    ThirdByte(s[3..], c);
  }

  lemma OnePadEnds()
    ensures Decode("=", 3, 0, 0) == Some([])
  {
  }

  lemma TwoPadsEnd()
    ensures Decode("==", 2, 0, 0) == Some([])
  {
    var rest := "==";
    assert rest[1..] == "=";
    assert Decode("=", 2, 0, 1) == Some([]);
    assert Decode(rest, 2, 0, 0) == Decode(rest[1..], 2, 0, 1);
  }

  lemma TailOfOneDecodes(s: string, a: Byte)
    requires |s| == 4 && Holds(s[0], a / 4) && Holds(s[1], a % 4 * 16) && s[2..] == "=="
    ensures Decode(s, 0, 0, 0) == Some([a])
  {
    FirstByte(s, a, 0);
    TwoPadsEnd();
    assert [a] + [] == [a];
  }

  lemma TailOfTwoDecodes(s: string, a: Byte, b: Byte)
    requires |s| == 4 && Holds(s[0], a / 4) && Holds(s[1], a % 4 * 16 + b / 16) && Holds(s[2], b % 16 * 4)
    requires s[3..] == "="
    ensures Decode(s, 0, 0, 0) == Some([a, b])
  {
    FirstByte(s, a, b / 16);
    SecondByte(s[2..], b, 0);
    assert s[2..][1..] == s[3..];
    OnePadEnds();
    assert [a] + ([b] + []) == [a, b];
  }

  lemma DecodeEncodeOne(a: Byte)
    ensures Decode(Encode([a]), 0, 0, 0) == Some([a])
  {
    CharHolds(a / 4);
    CharHolds(a % 4 * 16);
    TailOfOneDecodes(Encode([a]), a);
  }

  lemma DecodeEncodeTwo(a: Byte, b: Byte)
    ensures Decode(Encode([a, b]), 0, 0, 0) == Some([a, b])
  {
    CharHolds(a / 4);
    CharHolds(a % 4 * 16 + b / 16);
    CharHolds(b % 16 * 4);
    TailOfTwoDecodes(Encode([a, b]), a, b);
  }

  lemma {:induction false} DecodeEncode(b: seq<Byte>)
    ensures Decode(Encode(b), 0, 0, 0) == Some(b)
  {
    if |b| == 1 {
      DecodeEncodeOne(b[0]);
      assert b == [b[0]];
    } else if |b| == 2 {
      DecodeEncodeTwo(b[0], b[1]);
      assert b == [b[0], b[1]];
    } else if |b| > 2 {
      EncodedGroup(b);
      GroupDecodes(Encode(b), b[0], b[1], b[2]);
      DecodeEncode(b[3..]);
      assert b == [b[0]] + ([b[1]] + ([b[2]] + b[3..]));
    }
  }

  lemma EncodedGroup(b: seq<Byte>)
    requires |b| > 2
    ensures var s := Encode(b);
      && |s| >= 4 && s[4..] == Encode(b[3..])
      && Holds(s[0], b[0] / 4) && Holds(s[1], b[0] % 4 * 16 + b[1] / 16)
      && Holds(s[2], b[1] % 16 * 4 + b[2] / 64) && Holds(s[3], b[2] % 64)
      && InAlphabet(s[..4])
  {
    CharHolds(b[0] / 4);
    CharHolds(b[0] % 4 * 16 + b[1] / 16);
    CharHolds(b[1] % 16 * 4 + b[2] / 64);
    CharHolds(b[2] % 64);
  }

  /** An encoding is data characters and then the padding its length asks for. */
  predicate Padded(s: string, data: string, bytes: nat) {
    && InAlphabet(data)
    && s == data + Equals((4 - |data| % 4) % 4)
    && |data| * 3 <= bytes * 4 + 2
    && (data == "" <==> bytes == 0)
  }

  lemma {:induction false} DataIsPadded(b: seq<Byte>) returns (data: string)
    ensures Padded(Encode(b), data, |b|)
  {
    if b == [] {
      data := "";
    } else if |b| == 1 {
      CharHolds(b[0] / 4);
      CharHolds(b[0] % 4 * 16);
      data := [Char(b[0] / 4), Char(b[0] % 4 * 16)];
    } else if |b| == 2 {
      CharHolds(b[0] / 4);
      CharHolds(b[0] % 4 * 16 + b[1] / 16);
      CharHolds(b[1] % 16 * 4);
      data := [Char(b[0] / 4), Char(b[0] % 4 * 16 + b[1] / 16), Char(b[1] % 16 * 4)];
    } else {
      var rest := DataIsPadded(b[3..]);
      EncodedGroup(b);
      GroupBefore(Encode(b), rest, |b|);
      data := Encode(b)[..4] + rest;
    }
  }

  lemma GroupBefore(s: string, rest: string, bytes: nat)
    requires |s| >= 4 && bytes > 2 && InAlphabet(s[..4]) && Padded(s[4..], rest, bytes - 3)
    ensures Padded(s, s[..4] + rest, bytes)
  {
    assert s == s[..4] + s[4..];
  }

  lemma {:induction false} StripEquals(n: nat)
    ensures StripPadding(Equals(n)) == ""
  {
    if n > 0 {
      assert Equals(n)[..n - 1] == Equals(n - 1);
      StripEquals(n - 1);
    }
  }

  /** Stripping the padding and padding again by the length gives the encoded string back. */
  lemma PaddingReturns(b: seq<Byte>)
    ensures Padded(Encode(b), StripPadding(Encode(b)), |b|)
  {
    var data := DataIsPadded(b);
    if b != [] {
      var pads := (4 - |data| % 4) % 4;
      StripAfter(data, Equals(pads));
      StripEquals(pads);
      assert data + "" == data;
    }
  }

  lemma {:induction false} StripAfter(head: string, rest: string)
    requires head != "" && head[|head| - 1] != '='
    ensures StripPadding(head + rest) == head + StripPadding(rest)
  {
    var s := head + rest;
    if rest == "" {
      assert s == head;
    } else if rest[|rest| - 1] == '=' {
      assert s[..|s| - 1] == head + rest[..|rest| - 1];
      StripAfter(head, rest[..|rest| - 1]);
    }
  }

  lemma {:induction false} SlashesAreOnlyBetween(token: string)
    requires InAlphabet(token)
    ensures WithoutSlashes(Joined(Segments(token))) == token
    decreases |token|
  {
    if |token| > SEGMENT_CHARS {
      var head, rest := token[..SEGMENT_CHARS], token[SEGMENT_CHARS..];
      SlashesAreOnlyBetween(rest);
      JoinedAfter(head, Segments(rest));
      AfterSlash(head, Joined(Segments(rest)));
      assert head + rest == token;
    } else {
      NoSlashesIn(token, "");
      assert token + "" == token;
    }
  }

  lemma JoinedAfter(head: string, rest: seq<string>)
    requires rest != []
    ensures Joined([head] + rest) == head + "/" + Joined(rest)
  {
    assert ([head] + rest)[1..] == rest;
  }

  lemma AfterSlash(head: string, rest: string)
    requires InAlphabet(head)
    ensures WithoutSlashes(head + "/" + rest) == head + WithoutSlashes(rest)
  {
    assert head + "/" + rest == head + ("/" + rest);
    NoSlashesIn(head, "/" + rest);
    assert ("/" + rest)[1..] == rest;
  }

  lemma {:induction false} NoSlashesIn(head: string, rest: string)
    requires InAlphabet(head)
    ensures WithoutSlashes(head + rest) == head + WithoutSlashes(rest)
  {
    if head == "" {
      assert head + rest == rest;
    } else {
      NoSlashesIn(head[1..], rest);
      assert (head + rest)[1..] == head[1..] + rest;
    }
  }

  lemma PaddedIsAscii(s: string, data: string, bytes: nat)
    requires Padded(s, data, bytes)
    ensures Ascii(s)
  {
    forall i | 0 <= i < |s| ensures s[i] < 128 as char {
      assert i < |data| ==> Plain(data[i]);
    }
  }

  /** A key read back is the encoding it was cut from. */
  lemma KeyIsRead(sealed: seq<Byte>)
    ensures var token := WithoutSlashes(Joined(Segments(StripPadding(Encode(sealed)))));
      && token + Equals((4 - |token| % 4) % 4) == Encode(sealed) && Ascii(Encode(sealed))
  {
    PaddingReturns(sealed);
    SlashesAreOnlyBetween(StripPadding(Encode(sealed)));
    PaddedIsAscii(Encode(sealed), StripPadding(Encode(sealed)), |sealed|);
  }

  lemma ReadingIs(n: Names, key: string, sealed: seq<Byte>, raw: seq<Byte>)
    requires var token := WithoutSlashes(key);
      token + Equals((4 - |token| % 4) % 4) == Encode(sealed) && Ascii(Encode(sealed))
    requires n.decrypt(sealed) == Some(raw)
    ensures PathOf(n, key) == n.text(raw)
  {
    DecodeEncode(sealed);
  }

  /** Every path of 1 to 512 bytes comes back from its object key. */
  lemma PathRoundTrip(n: Names, path: string)
    requires Lawful(n) && 1 <= |n.utf8(path)| <= MAX_PATH_BYTES
    ensures ObjectKey(n, path).Name? && PathOf(n, ObjectKey(n, path).key) == Some(path)
  {
    var raw := n.utf8(path);
    KeyIsRead(n.encrypt(raw));
    ReadingIs(n, ObjectKey(n, path).key, n.encrypt(raw), raw);
  }

  /** Two paths never share an object key, and a path outside the limits has none. */
  lemma DistinctPathsDistinctKeys(n: Names, path: string, other: string)
    requires Lawful(n)
    ensures ObjectKey(n, path).Name? <==> 1 <= |n.utf8(path)| <= MAX_PATH_BYTES
    ensures ObjectKey(n, path).Name? && ObjectKey(n, path) == ObjectKey(n, other) ==> path == other
  {
    if ObjectKey(n, path).Name? && ObjectKey(n, other).Name? {
      PathRoundTrip(n, path);
      PathRoundTrip(n, other);
    }
  }

  /** A key is at most four segments of 1 to 200 characters, without a slash inside. */
  lemma KeyShape(n: Names, path: string)
    requires Lawful(n) && ObjectKey(n, path).Name?
    ensures var segments := Segments(Token(n, n.utf8(path)));
            && ObjectKey(n, path).key == Joined(segments) && 1 <= |segments| <= 4
            && forall i :: 0 <= i < |segments| ==> 1 <= |segments[i]| <= SEGMENT_CHARS && InAlphabet(segments[i])
  {
    PaddingReturns(n.encrypt(n.utf8(path)));
    SegmentShape(Token(n, n.utf8(path)));
  }

  lemma {:induction false} SegmentShape(token: string)
    requires InAlphabet(token)
    ensures var segments := Segments(token);
            && (forall i :: 0 <= i < |segments| ==> 1 <= |segments[i]| <= SEGMENT_CHARS && InAlphabet(segments[i]))
            && |segments| * SEGMENT_CHARS < |token| + SEGMENT_CHARS && (token != "" ==> segments != [])
    decreases |token|
  {
    if |token| > SEGMENT_CHARS {
      SegmentShape(token[SEGMENT_CHARS..]);
    }
  }
}
