/** Cutting a note into the passages that are embedded: sections by heading, windows of words (mindin/vectors.py:23-25,
    46-74). */
module Chunks {
  import opened Texts

  const WINDOW_WORDS := 90

  datatype Heading = Heading(level: nat, text: string)
  datatype Section = Section(trail: seq<string>, lines: seq<string>)
  datatype Chunk = Chunk(heading: string, text: string)

  /** The two line patterns: an ATX heading with its level and stripped text, and a code fence. */
  datatype Patterns = Patterns(heading: string -> Option<Heading>, fence: string -> bool)

  // ---- words ----

  /** `str.split()`: `word` is what has been read of the current word. */
  function WordsFrom(s: string, word: string): seq<string> {
    if s == "" then if word == "" then [] else [word]
    else if IsSpace(s[0]) then (if word == "" then [] else [word]) + WordsFrom(s[1..], "")
    else WordsFrom(s[1..], word + [s[0]])
  }

  function Words(s: string): seq<string> {
    WordsFrom(s, "")
  }

  function Join(parts: seq<string>, separator: string): string {
    if parts == [] then "" else if |parts| == 1 then parts[0]
    else parts[0] + separator + Join(parts[1..], separator)
  }

  function Flatten<T>(parts: seq<seq<T>>): seq<T> {
    if parts == [] then [] else parts[0] + Flatten(parts[1..])
  }

  predicate IsWord(s: string) {
    s != "" && forall i :: 0 <= i < |s| ==> !IsSpace(s[i])
  }

  lemma {:induction false} WordsFromSplits(a: string, space: char, b: string, word: string)
    requires IsSpace(space)
    ensures WordsFrom(a + [space] + b, word) == WordsFrom(a, word) + Words(b)
  {
    if a == "" {
      assert (a + [space] + b)[1..] == b;
      assert WordsFrom(a, word) == if word == "" then [] else [word];
    } else {
      assert (a + [space] + b)[1..] == a[1..] + [space] + b;
      WordsFromSplits(a[1..], space, b, if IsSpace(a[0]) then "" else word + [a[0]]);
    }
  }

  lemma {:induction false} WholeWord(s: string, word: string)
    requires forall i :: 0 <= i < |s| ==> !IsSpace(s[i])
    requires word + s != ""
    ensures WordsFrom(s, word) == [word + s]
  {
    if s != "" {
      WholeWord(s[1..], word + [s[0]]);
      assert word + [s[0]] + s[1..] == word + s;
    } else {
      assert word + s == word;
    }
  }

  /** Splitting what was joined by spaces, or by newlines, gives the words of the parts, in order. */
  lemma {:induction false} WordsOfJoined(parts: seq<string>, space: char)
    requires IsSpace(space)
    ensures Words(Join(parts, [space])) == Flatten(WordsByLine(parts))
  {
    var split := WordsByLine(parts);
    if |parts| == 1 {
      assert Flatten(split) == split[0] + Flatten(split[1..]);
    } else if parts != [] {
      WordsOfJoined(parts[1..], space);
      assert split[1..] == WordsByLine(parts[1..]);
      WordsFromSplits(parts[0], space, Join(parts[1..], [space]), "");
    }
  }

  lemma {:induction false} WordsAreWords(s: string, word: string)
    requires forall i :: 0 <= i < |word| ==> !IsSpace(word[i])
    ensures forall w :: w in WordsFrom(s, word) ==> IsWord(w)
  {
    if s != "" {
      WordsAreWords(s[1..], if IsSpace(s[0]) then "" else word + [s[0]]);
    }
  }

  // ---- sections ----

  datatype Scanner = Scanner(found: seq<Section>, trail: seq<Heading>, fenced: bool)

  const START := Scanner([Section([], [])], [], false)

  function Opened(trail: seq<Heading>, heading: Heading): (open: seq<Heading>)
    ensures open != [] && open[|open| - 1] == heading
  {
    if trail == [] then [heading]
    else if trail[0].level < heading.level then [trail[0]] + Opened(trail[1..], heading)
    else Opened(trail[1..], heading)
  }

  function TextsOf(trail: seq<Heading>): (texts: seq<string>)
    ensures |texts| == |trail| && forall i :: 0 <= i < |trail| ==> texts[i] == trail[i].text
  {
    seq(|trail|, i requires 0 <= i < |trail| => trail[i].text)
  }

  /** The heading of a line, unless a fence is open after it. */
  function HeadingAt(p: Patterns, fenced: bool, line: string): Option<Heading> {
    if fenced != p.fence(line) then None else p.heading(line)
  }

  function Scan(p: Patterns, s: Scanner, line: string): Scanner
    requires s.found != []
  {
    var fenced := s.fenced != p.fence(line);
    var heading := HeadingAt(p, s.fenced, line);
    var n := |s.found| - 1;
    if heading.None? then
      Scanner(s.found[..n] + [s.found[n].(lines := s.found[n].lines + [line])], s.trail, fenced)
    else
      var trail := Opened(s.trail, heading.value);
      Scanner(s.found + [Section(TextsOf(trail), [])], trail, fenced)
  }

  function Scanned(p: Patterns, lines: seq<string>): (s: Scanner)
    ensures s.found != []
  {
    if lines == [] then START else Scan(p, Scanned(p, lines[..|lines| - 1]), lines[|lines| - 1])
  }

  /** The sections of a body, and under which headings each stands. */
  method Sections(p: Patterns, lines: seq<string>) returns (found: seq<Section>)
    ensures found == Scanned(p, lines).found
  {
    found := [Section([], [])];
    var trail: seq<Heading> := [];
    var fenced := false;
    for i := 0 to |lines|
      invariant Scanner(found, trail, fenced) == Scanned(p, lines[..i])
    {
      assert lines[..i + 1][..i] == lines[..i];
      if p.fence(lines[i]) {
        fenced := !fenced;
      }
      var heading := if fenced then None else p.heading(lines[i]);
      if heading.None? {
        var last := found[|found| - 1];
        found := found[..|found| - 1] + [last.(lines := last.lines + [lines[i]])];
      } else {
        trail := Opened(trail, heading.value);
        found := found + [Section(TextsOf(trail), [])];
      }
    }
    assert lines[..|lines|] == lines;
  }

  function Fenced(p: Patterns, lines: seq<string>): bool {
    if lines == [] then false else Fenced(p, lines[..|lines| - 1]) != p.fence(lines[|lines| - 1])
  }

  function LinesOf(found: seq<Section>): seq<seq<string>> {
    seq(|found|, i requires 0 <= i < |found| => found[i].lines)
  }

  /** The headings still open after a list of headings. */
  function Trail(headings: seq<Heading>): seq<Heading> {
    if headings == [] then [] else Opened(Trail(headings[..|headings| - 1]), headings[|headings| - 1])
  }

  predicate Rising(trail: seq<Heading>) {
    forall i, j :: 0 <= i < j < |trail| ==> trail[i].level < trail[j].level
  }

  lemma {:induction false} OpenedMembers(trail: seq<Heading>, heading: Heading, h: Heading)
    ensures h in Opened(trail, heading) <==> h == heading || (h in trail && h.level < heading.level)
  {
    if trail != [] {
      OpenedMembers(trail[1..], heading, h);
      assert h in trail <==> h == trail[0] || h in trail[1..];
    }
  }

  lemma {:induction false} OpenedRises(trail: seq<Heading>, heading: Heading)
    requires Rising(trail)
    ensures Rising(Opened(trail, heading))
  {
    if trail != [] {
      OpenedRises(trail[1..], heading);
      var rest := Opened(trail[1..], heading);
      forall i | 0 <= i < |rest| ensures trail[0].level < heading.level ==> trail[0].level < rest[i].level {
        OpenedMembers(trail[1..], heading, rest[i]);
      }
    }
  }

  /** A heading that no later one of its level or of a higher rank has closed. */
  predicate Open(headings: seq<Heading>, i: nat) {
    i < |headings| && forall j :: i < j < |headings| ==> headings[j].level > headings[i].level
  }

  lemma OpenBefore(headings: seq<Heading>, i: nat)
    requires headings != [] && i < |headings| - 1
    ensures Open(headings, i) <==>
            Open(headings[..|headings| - 1], i) && headings[|headings| - 1].level > headings[i].level
  {
  }

  ghost predicate SomeOpen(headings: seq<Heading>, h: Heading) {
    exists i: nat :: Open(headings, i) && headings[i] == h
  }

  lemma OpenAfter(headings: seq<Heading>, next: Heading, h: Heading)
    ensures SomeOpen(headings + [next], h) <==> h == next || (SomeOpen(headings, h) && h.level < next.level)
  {
    var all, n := headings + [next], |headings|;
    assert all[..n] == headings;
    assert Open(all, n);
    if i: nat :| Open(all, i) && all[i] == h && i < n {
      OpenBefore(all, i);
    }
    if i: nat :| Open(headings, i) && headings[i] == h {
      OpenBefore(all, i);
    }
  }

  lemma NextTrail(headings: seq<Heading>, next: Heading)
    ensures Trail(headings + [next]) == Opened(Trail(headings), next)
  {
    assert (headings + [next])[..|headings|] == headings;
  }

  lemma {:induction false} TrailRises(headings: seq<Heading>)
    ensures Rising(Trail(headings))
  {
    if headings != [] {
      var n := |headings| - 1;
      TrailRises(headings[..n]);
      OpenedRises(Trail(headings[..n]), headings[n]);
    }
  }

  lemma NextIsOpen(headings: seq<Heading>, next: Heading, h: Heading)
    requires h in Trail(headings) <==> SomeOpen(headings, h)
    ensures h in Trail(headings + [next]) <==> SomeOpen(headings + [next], h)
  {
    OpenedMembers(Trail(headings), next, h);
    OpenAfter(headings, next, h);
    NextTrail(headings, next);
  }

  lemma {:induction false} TrailIsOpen(headings: seq<Heading>, h: Heading)
    ensures h in Trail(headings) <==> SomeOpen(headings, h)
  {
    if headings != [] {
      var n := |headings| - 1;
      TrailIsOpen(headings[..n], h);
      NextIsOpen(headings[..n], headings[n], h);
      assert headings == headings[..n] + [headings[n]];
    }
  }

  /** The trail of a section is the path to it: exactly the headings still open, outermost first, the newest last. */
  lemma TrailIsThePath(headings: seq<Heading>, h: Heading)
    ensures Rising(Trail(headings))
    ensures h in Trail(headings) <==> SomeOpen(headings, h)
    ensures headings != [] ==> Trail(headings) != [] && Trail(headings)[|Trail(headings)| - 1] == headings[|headings| - 1]
  {
    TrailRises(headings);
    TrailIsOpen(headings, h);
  }

  // ---- what the scan keeps ----

  /** The lines that are not headings, and the headings, in order. */
  function PlainOf(p: Patterns, lines: seq<string>): seq<string> {
    if lines == [] then []
    else
      var n := |lines| - 1;
      var heading := HeadingAt(p, Fenced(p, lines[..n]), lines[n]);
      PlainOf(p, lines[..n]) + if heading.None? then [lines[n]] else []
  }

  function HeadingsOf(p: Patterns, lines: seq<string>): seq<Heading> {
    if lines == [] then []
    else
      var n := |lines| - 1;
      var heading := HeadingAt(p, Fenced(p, lines[..n]), lines[n]);
      HeadingsOf(p, lines[..n]) + if heading.Some? then [heading.value] else []
  }

  lemma {:induction false} FlattenAppend<T>(a: seq<seq<T>>, b: seq<T>)
    ensures Flatten(a + [b]) == Flatten(a) + b
  {
    if a == [] {
      assert Flatten([b]) == b + Flatten([b][1..]);
    } else {
      FlattenAppend(a[1..], b);
      assert (a + [b])[1..] == a[1..] + [b];
    }
  }

  lemma LastGrows(found: seq<Section>, line: string)
    requires found != []
    ensures var n := |found| - 1;
      Flatten(LinesOf(found[..n] + [found[n].(lines := found[n].lines + [line])])) == Flatten(LinesOf(found)) + [line]
  {
    var n := |found| - 1;
    var grown := found[..n] + [found[n].(lines := found[n].lines + [line])];
    FlattenAppend(LinesOf(found[..n]), found[n].lines);
    FlattenAppend(LinesOf(found[..n]), found[n].lines + [line]);
    assert LinesOf(found) == LinesOf(found[..n]) + [found[n].lines];
    assert LinesOf(grown) == LinesOf(found[..n]) + [found[n].lines + [line]];
  }

  lemma SectionOpens(found: seq<Section>, trail: seq<string>)
    ensures Flatten(LinesOf(found + [Section(trail, [])])) == Flatten(LinesOf(found))
  {
    FlattenAppend(LinesOf(found), []);
    assert LinesOf(found + [Section(trail, [])]) == LinesOf(found) + [[]];
  }

  lemma {:induction false} ScanState(p: Patterns, lines: seq<string>)
    ensures Scanned(p, lines).fenced == Fenced(p, lines)
    ensures Scanned(p, lines).trail == Trail(HeadingsOf(p, lines))
  {
    if lines != [] {
      var n := |lines| - 1;
      ScanState(p, lines[..n]);
      var heading := HeadingAt(p, Fenced(p, lines[..n]), lines[n]);
      if heading.Some? {
        NextTrail(HeadingsOf(p, lines[..n]), heading.value);
      } else {
        assert HeadingsOf(p, lines) == HeadingsOf(p, lines[..n]);
      }
    }
  }

  lemma {:induction false} ScanKeepsLines(p: Patterns, lines: seq<string>)
    ensures Flatten(LinesOf(Scanned(p, lines).found)) == PlainOf(p, lines)
  {
    if lines == [] {
      assert LinesOf(START.found) == [[]];
    } else {
      var n := |lines| - 1;
      var was := Scanned(p, lines[..n]);
      ScanState(p, lines[..n]);
      ScanKeepsLines(p, lines[..n]);
      var heading := HeadingAt(p, was.fenced, lines[n]);
      if heading.None? {
        LastGrows(was.found, lines[n]);
      } else {
        SectionOpens(was.found, TextsOf(Opened(was.trail, heading.value)));
        assert PlainOf(p, lines) == PlainOf(p, lines[..n]);
      }
    }
  }

  predicate UnderTrail(section: Section, headings: seq<Heading>) {
    section.trail == TextsOf(Trail(headings))
  }

  predicate UnderTrails(found: seq<Section>, headings: seq<Heading>) {
    |found| == |headings| + 1 && forall k :: 0 <= k < |found| ==> UnderTrail(found[k], headings[..k])
  }

  lemma TrailsExtend(found: seq<Section>, headings: seq<Heading>, next: Heading, section: Section)
    requires UnderTrails(found, headings) && UnderTrail(section, headings + [next])
    ensures UnderTrails(found + [section], headings + [next])
  {
    var longer := headings + [next];
    assert longer[..|found|] == longer;
    forall k | 0 <= k < |found| ensures UnderTrail(found[k], longer[..k]) {
      assert longer[..k] == headings[..k];
    }
  }

  lemma TrailsStay(found: seq<Section>, headings: seq<Heading>, lines: seq<string>)
    requires UnderTrails(found, headings)
    ensures UnderTrails(found[..|found| - 1] + [found[|found| - 1].(lines := lines)], headings)
  {
  }

  lemma {:induction false} ScanTrails(p: Patterns, lines: seq<string>)
    ensures UnderTrails(Scanned(p, lines).found, HeadingsOf(p, lines))
  {
    if lines == [] {
      assert Trail([]) == [];
    } else {
      var n := |lines| - 1;
      var was, headings := Scanned(p, lines[..n]), HeadingsOf(p, lines[..n]);
      ScanTrails(p, lines[..n]);
      ScanState(p, lines[..n]);
      var heading := HeadingAt(p, was.fenced, lines[n]);
      if heading.Some? {
        NextTrail(headings, heading.value);
        TrailsExtend(was.found, headings, heading.value, Section(TextsOf(Opened(was.trail, heading.value)), []));
        assert HeadingsOf(p, lines) == headings + [heading.value];
      } else {
        TrailsStay(was.found, headings, was.found[|was.found| - 1].lines + [lines[n]]);
        assert HeadingsOf(p, lines) == headings;
      }
    }
  }

  /** No line is lost or moved: the sections hold the lines that are not headings, in order, one section for each
      heading and one before the first, each under the headings open where it begins. */
  lemma SectionsKeepTheBody(p: Patterns, lines: seq<string>)
    ensures Flatten(LinesOf(Scanned(p, lines).found)) == PlainOf(p, lines)
    ensures UnderTrails(Scanned(p, lines).found, HeadingsOf(p, lines))
  {
    ScanKeepsLines(p, lines);
    ScanTrails(p, lines);
  }

  /** How many of the lines open or close a fence. */
  function Fences(p: Patterns, lines: seq<string>): nat {
    if lines == [] then 0
    else Fences(p, lines[..|lines| - 1]) + if p.fence(lines[|lines| - 1]) then 1 else 0
  }

  lemma {:induction false} FencedIsOdd(p: Patterns, lines: seq<string>)
    ensures Fenced(p, lines) <==> Fences(p, lines) % 2 == 1
  {
    if lines != [] {
      FencedIsOdd(p, lines[..|lines| - 1]);
    }
  }

  /** A line is a heading exactly when it looks like one and no fence is open after it; every other line is text. */
  lemma HeadingsAreOutsideFences(p: Patterns, lines: seq<string>, line: string)
    ensures var all, heading := lines + [line], p.heading(line);
      if heading.Some? && Fences(p, all) % 2 == 0
      then HeadingsOf(p, all) == HeadingsOf(p, lines) + [heading.value] && PlainOf(p, all) == PlainOf(p, lines)
      else HeadingsOf(p, all) == HeadingsOf(p, lines) && PlainOf(p, all) == PlainOf(p, lines) + [line]
  {
    FencedIsOdd(p, lines);
    assert (lines + [line])[..|lines|] == lines;
  }

  // ---- windows ----

  function Windows(words: seq<string>): seq<seq<string>> {
    if words == [] then []
    else if |words| <= WINDOW_WORDS then [words]
    else [words[..WINDOW_WORDS]] + Windows(words[WINDOW_WORDS..])
  }

  /** The windows cut the words without loss, none empty and none longer than the limit. */
  lemma {:induction false} WindowsKeepTheWords(words: seq<string>)
    ensures Flatten(Windows(words)) == words
    ensures forall w :: w in Windows(words) ==> 1 <= |w| <= WINDOW_WORDS && forall x :: x in w ==> x in words
    ensures WINDOW_WORDS * |Windows(words)| < |words| + WINDOW_WORDS
  {
    if |words| > WINDOW_WORDS {
      WindowsKeepTheWords(words[WINDOW_WORDS..]);
    }
  }

  function Lines(parts: seq<string>): string {
    Join(NotEmpty(parts), "\n")
  }

  function NotEmpty(parts: seq<string>): seq<string> {
    if parts == [] then [] else (if parts[0] == "" then [] else [parts[0]]) + NotEmpty(parts[1..])
  }

  function ChunkOf(title: string, trail: seq<string>, window: seq<string>): Chunk {
    Chunk(if trail == [] then "" else trail[|trail| - 1], Lines([title, Join(trail, " > "), Join(window, " ")]))
  }

  function SectionWords(summary: string, section: Section): seq<string> {
    (if section.trail == [] then Words(summary) else []) + Words(Join(section.lines, " "))
  }

  function ChunksFor(title: string, trail: seq<string>, windows: seq<seq<string>>): seq<Chunk> {
    seq(|windows|, i requires 0 <= i < |windows| => ChunkOf(title, trail, windows[i]))
  }

  function ChunksBySection(title: string, summary: string, found: seq<Section>): seq<seq<Chunk>> {
    seq(|found|, i requires 0 <= i < |found| =>
      ChunksFor(title, found[i].trail, Windows(SectionWords(summary, found[i]))))
  }

  function ChunksIn(title: string, summary: string, found: seq<Section>): seq<Chunk> {
    Flatten(ChunksBySection(title, summary, found))
  }

  /** The passages of a note: at least one. */
  function ChunksOf(p: Patterns, title: string, summary: string, lines: seq<string>): (chunks: seq<Chunk>)
    ensures chunks != []
  {
    var chunks := ChunksIn(title, summary, Scanned(p, lines).found);
    if chunks == [] then [Chunk("", title)] else chunks
  }

  lemma ChunksForAppend(title: string, trail: seq<string>, windows: seq<seq<string>>, next: seq<string>)
    ensures ChunksFor(title, trail, windows + [next]) == ChunksFor(title, trail, windows) + [ChunkOf(title, trail, next)]
  {
  }

  lemma ChunksInAppend(title: string, summary: string, found: seq<Section>, next: Section)
    ensures ChunksIn(title, summary, found + [next]) ==
            ChunksIn(title, summary, found) + ChunksFor(title, next.trail, Windows(SectionWords(summary, next)))
  {
    var more := ChunksFor(title, next.trail, Windows(SectionWords(summary, next)));
    FlattenAppend(ChunksBySection(title, summary, found), more);
    assert ChunksBySection(title, summary, found + [next]) == ChunksBySection(title, summary, found) + [more];
  }

  lemma {:induction false} WindowsUpTo(words: seq<string>, start: nat)
    requires start % WINDOW_WORDS == 0 && start < |words|
    ensures Windows(words[..if start + WINDOW_WORDS < |words| then start + WINDOW_WORDS else |words|]) ==
            Windows(words[..start])
            + [words[start..if start + WINDOW_WORDS < |words| then start + WINDOW_WORDS else |words|]]
  {
    var end := if start + WINDOW_WORDS < |words| then start + WINDOW_WORDS else |words|;
    if start > 0 {
      var rest := words[WINDOW_WORDS..];
      WindowsUpTo(rest, start - WINDOW_WORDS);
      assert words[..end][WINDOW_WORDS..] == rest[..end - WINDOW_WORDS];
      assert words[..start][WINDOW_WORDS..] == rest[..start - WINDOW_WORDS];
      assert rest[start - WINDOW_WORDS..end - WINDOW_WORDS] == words[start..end];
      assert words[..end][..WINDOW_WORDS] == words[..WINDOW_WORDS] == words[..start][..WINDOW_WORDS];
      assert start == WINDOW_WORDS ==> words[..start] == words[..WINDOW_WORDS];
    }
  }

  predicate AllWords(words: seq<string>) {
    forall i :: 0 <= i < |words| ==> IsWord(words[i])
  }

  lemma {:induction false} WordsOfAWindow(window: seq<string>)
    requires AllWords(window)
    ensures Words(Join(window, " ")) == window
  {
    if |window| == 1 {
      WholeWord(window[0], "");
      assert "" + window[0] == window[0];
    } else if window != [] {
      WordsOfAWindow(window[1..]);
      WordsFromSplits(window[0], ' ', Join(window[1..], " "), "");
      WholeWord(window[0], "");
      assert "" + window[0] == window[0];
    }
  }

  function Rejoined(windows: seq<seq<string>>): seq<seq<string>> {
    seq(|windows|, i requires 0 <= i < |windows| => Words(Join(windows[i], " ")))
  }

  function WordsByLine(lines: seq<string>): seq<seq<string>> {
    seq(|lines|, i requires 0 <= i < |lines| => Words(lines[i]))
  }

  lemma RejoiningIsNothing(windows: seq<seq<string>>)
    requires forall i :: 0 <= i < |windows| ==> AllWords(windows[i])
    ensures Rejoined(windows) == windows
  {
    forall i | 0 <= i < |windows| ensures Rejoined(windows)[i] == windows[i] {
      WordsOfAWindow(windows[i]);
    }
  }

  lemma {:induction false} WindowsAreWords(words: seq<string>)
    requires AllWords(words)
    ensures forall i :: 0 <= i < |Windows(words)| ==> AllWords(Windows(words)[i])
  {
    if |words| > WINDOW_WORDS {
      WindowsAreWords(words[WINDOW_WORDS..]);
    }
  }

  /** Every word of a section is in exactly one of its passages, in order: splitting the windows again gives the words
      of the summary, for the section before the first heading, and then those of each line. */
  lemma PassagesKeepTheWords(summary: string, section: Section)
    ensures Flatten(Rejoined(Windows(SectionWords(summary, section)))) ==
            (if section.trail == [] then Words(summary) else []) + Flatten(WordsByLine(section.lines))
  {
    var words := SectionWords(summary, section);
    WordsOfJoined(section.lines, ' ');
    WindowsKeepTheWords(words);
    WordsAreWords(summary, "");
    WordsAreWords(Join(section.lines, " "), "");
    assert AllWords(words);
    WindowsAreWords(words);
    RejoiningIsNothing(Windows(words));
  }

  // ---- what a passage says ----

  /** The words of a label: those of the headings, with a mark between one and the next. */
  function LabelWords(trail: seq<string>): seq<string> {
    if trail == [] then [] else if |trail| == 1 then Words(trail[0])
    else Words(trail[0]) + [">"] + LabelWords(trail[1..])
  }

  lemma {:induction false} WordsOfLabel(trail: seq<string>)
    ensures Words(Join(trail, " > ")) == LabelWords(trail)
  {
    if |trail| > 1 {
      var rest := Join(trail[1..], " > ");
      WordsOfLabel(trail[1..]);
      assert Join(trail, " > ") == trail[0] + " " + (">" + " " + rest);
      WordsFromSplits(trail[0], ' ', ">" + " " + rest, "");
      WordsFromSplits(">", ' ', rest, "");
      WholeWord(">", "");
      assert "" + ">" == ">";
    }
  }

  lemma FlattenCons<T>(a: seq<T>, rest: seq<seq<T>>)
    ensures Flatten([a] + rest) == a + Flatten(rest)
  {
    assert ([a] + rest)[1..] == rest;
  }

  lemma {:induction false} EmptyPartsHaveNoWords(parts: seq<string>)
    ensures Flatten(WordsByLine(NotEmpty(parts))) == Flatten(WordsByLine(parts))
  {
    if parts != [] {
      var rest := NotEmpty(parts[1..]);
      EmptyPartsHaveNoWords(parts[1..]);
      FlattenCons(Words(parts[0]), WordsByLine(parts[1..]));
      assert WordsByLine(parts) == [Words(parts[0])] + WordsByLine(parts[1..]);
      if parts[0] == "" {
        assert NotEmpty(parts) == rest;
      } else {
        FlattenCons(Words(parts[0]), WordsByLine(rest));
        assert WordsByLine(NotEmpty(parts)) == [Words(parts[0])] + WordsByLine(rest);
      }
    }
  }

  /** A chunk says its title, the headings it stands under, and then the words of its window; and it is named by the
      innermost heading. */
  predicate Says(chunk: Chunk, title: string, trail: seq<string>, window: seq<string>) {
    && Words(chunk.text) == Words(title) + LabelWords(trail) + window
    && chunk.heading == if trail == [] then "" else trail[|trail| - 1]
  }

  lemma ChunkSays(title: string, trail: seq<string>, window: seq<string>)
    requires AllWords(window)
    ensures Says(ChunkOf(title, trail, window), title, trail, window)
  {
    var parts := [title, Join(trail, " > "), Join(window, " ")];
    WordsOfJoined(NotEmpty(parts), '\n');
    EmptyPartsHaveNoWords(parts);
    WordsOfLabel(trail);
    WordsOfAWindow(window);
    assert WordsByLine(parts) == [Words(title)] + ([LabelWords(trail)] + ([window] + []));
    FlattenCons(Words(title), [LabelWords(trail)] + ([window] + []));
    FlattenCons(LabelWords(trail), [window] + []);
    FlattenCons(window, []);
  }

  /** One section's passages say its words, window by window, under its trail. */
  predicate SaysSection(chunks: seq<Chunk>, title: string, trail: seq<string>, windows: seq<seq<string>>) {
    |chunks| == |windows| && forall i :: 0 <= i < |chunks| ==> Says(chunks[i], title, trail, windows[i])
  }

  /** The passages of a note, section by section: those of each section stand under the headings open where it begins,
      and their windows, of 1 to 90 words, hold together the words of the summary and then of every line that is not a
      heading, each once and in order. */
  ghost predicate SaysNote(p: Patterns, title: string, summary: string, lines: seq<string>, parts: seq<seq<Chunk>>,
                           windows: seq<seq<seq<string>>>) {
    var headings := HeadingsOf(p, lines);
    && |parts| == |windows| == |headings| + 1
    && (forall k :: 0 <= k < |parts| ==> SaysSection(parts[k], title, TextsOf(Trail(headings[..k])), windows[k]))
    && Flatten(Flatten(windows)) == Words(summary) + Flatten(WordsByLine(PlainOf(p, lines)))
    && Sized(Flatten(windows))
  }

  function WindowsBySection(summary: string, found: seq<Section>): seq<seq<seq<string>>> {
    seq(|found|, i requires 0 <= i < |found| => Windows(SectionWords(summary, found[i])))
  }

  lemma SectionSays(title: string, summary: string, section: Section)
    ensures SaysSection(ChunksFor(title, section.trail, Windows(SectionWords(summary, section))), title, section.trail,
                        Windows(SectionWords(summary, section)))
  {
    var words := SectionWords(summary, section);
    WordsAreWords(summary, "");
    WordsAreWords(Join(section.lines, " "), "");
    WindowsAreWords(words);
    forall i | 0 <= i < |Windows(words)|
      ensures Says(ChunksFor(title, section.trail, Windows(words))[i], title, section.trail, Windows(words)[i])
    {
      ChunkSays(title, section.trail, Windows(words)[i]);
    }
  }

  lemma {:induction false} FlattenBoth<T>(a: seq<seq<T>>, b: seq<seq<T>>)
    ensures Flatten(a + b) == Flatten(a) + Flatten(b)
  {
    if a == [] {
      assert a + b == b;
    } else {
      assert (a + b)[1..] == a[1..] + b;
      FlattenBoth(a[1..], b);
    }
  }

  lemma WordsByLineBoth(a: seq<string>, b: seq<string>)
    ensures Flatten(WordsByLine(a + b)) == Flatten(WordsByLine(a)) + Flatten(WordsByLine(b))
  {
    assert WordsByLine(a + b) == WordsByLine(a) + WordsByLine(b);
    FlattenBoth(WordsByLine(a), WordsByLine(b));
  }

  /** The words in the windows, and the words in the lines, of some sections. */
  function WindowWords(summary: string, found: seq<Section>): seq<string> {
    Flatten(Flatten(WindowsBySection(summary, found)))
  }

  function LineWords(found: seq<Section>): seq<string> {
    Flatten(WordsByLine(Flatten(LinesOf(found))))
  }

  predicate Sized(windows: seq<seq<string>>) {
    forall w :: w in windows ==> 1 <= |w| <= WINDOW_WORDS
  }

  lemma LastWindows(summary: string, found: seq<Section>, last: Section)
    ensures WindowWords(summary, found + [last]) == WindowWords(summary, found) + SectionWords(summary, last)
    ensures Sized(Flatten(WindowsBySection(summary, found))) ==>
              Sized(Flatten(WindowsBySection(summary, found + [last])))
  {
    var windows, more := WindowsBySection(summary, found), Windows(SectionWords(summary, last));
    WindowsKeepTheWords(SectionWords(summary, last));
    assert WindowsBySection(summary, found + [last]) == windows + [more];
    FlattenAppend(windows, more);
    FlattenBoth(Flatten(windows), more);
  }

  lemma LastLines(found: seq<Section>, last: Section)
    ensures LineWords(found + [last]) == LineWords(found) + Words(Join(last.lines, " "))
  {
    FlattenAppend(LinesOf(found), last.lines);
    assert LinesOf(found + [last]) == LinesOf(found) + [last.lines];
    WordsByLineBoth(Flatten(LinesOf(found)), last.lines);
    WordsOfJoined(last.lines, ' ');
  }

  lemma NoSections(summary: string)
    ensures WindowWords(summary, []) == [] && LineWords([]) == [] && Sized(Flatten(WindowsBySection(summary, [])))
  {
    assert WindowsBySection(summary, []) == [] && LinesOf([]) == [];
  }

  lemma OneSection(summary: string, section: Section)
    requires section.trail == []
    ensures WindowWords(summary, [section]) == Words(summary) + LineWords([section])
    ensures Sized(Flatten(WindowsBySection(summary, [section])))
  {
    var none: seq<Section> := [];
    NoSections(summary);
    LastWindows(summary, none, section);
    LastLines(none, section);
    assert none + [section] == [section];
  }

  lemma OneMoreSection(summary: string, rest: seq<Section>, last: Section)
    requires last.trail != [] && WindowWords(summary, rest) == Words(summary) + LineWords(rest)
    ensures WindowWords(summary, rest + [last]) == Words(summary) + LineWords(rest + [last])
  {
    LastWindows(summary, rest, last);
    LastLines(rest, last);
    var more := Words(Join(last.lines, " "));
    assert SectionWords(summary, last) == more;
    assert Words(summary) + LineWords(rest) + more == Words(summary) + (LineWords(rest) + more);
  }

  /** The windows of some sections, the first of which stands under no heading and the others each under one. */
  lemma {:induction false} WindowsHoldTheWords(summary: string, found: seq<Section>)
    requires found != [] && found[0].trail == [] && forall k :: 1 <= k < |found| ==> found[k].trail != []
    ensures WindowWords(summary, found) == Words(summary) + LineWords(found)
    ensures Sized(Flatten(WindowsBySection(summary, found)))
  {
    var n := |found| - 1;
    if n == 0 {
      assert found == [found[0]];
      OneSection(summary, found[0]);
    } else {
      assert found == found[..n] + [found[n]];
      WindowsHoldTheWords(summary, found[..n]);
      OneMoreSection(summary, found[..n], found[n]);
      LastWindows(summary, found[..n], found[n]);
    }
  }

  /** Cut by its headings and by windows, every word of a note is in exactly one passage, in order, and each passage says
      which note and which headings it belongs to. */
  lemma PassagesSayTheNote(p: Patterns, title: string, summary: string, lines: seq<string>)
    returns (parts: seq<seq<Chunk>>, windows: seq<seq<seq<string>>>)
    ensures SaysNote(p, title, summary, lines, parts, windows)
    ensures ChunksOf(p, title, summary, lines) == if Flatten(parts) == [] then [Chunk("", title)] else Flatten(parts)
  {
    var found, headings := Scanned(p, lines).found, HeadingsOf(p, lines);
    SectionsKeepTheBody(p, lines);
    parts, windows := ChunksBySection(title, summary, found), WindowsBySection(summary, found);
    forall k | 0 <= k < |found| ensures SaysSection(parts[k], title, TextsOf(Trail(headings[..k])), windows[k]) {
      SectionSays(title, summary, found[k]);
      assert UnderTrail(found[k], headings[..k]);
    }
    forall k | 0 <= k < |found| ensures found[k].trail == [] <==> k == 0 {
      assert UnderTrail(found[k], headings[..k]);
      TrailIsEmpty(headings[..k]);
    }
    WindowsHoldTheWords(summary, found);
  }

  /** What the passages of a note say; one without any word is embedded by its title. */
  ghost predicate SayTheNote(p: Patterns, title: string, summary: string, lines: seq<string>, chunks: seq<Chunk>) {
    exists parts, windows :: SaysNote(p, title, summary, lines, parts, windows)
      && chunks == if Flatten(parts) == [] then [Chunk("", title)] else Flatten(parts)
  }

  lemma ChunksSayTheNote(p: Patterns, title: string, summary: string, lines: seq<string>)
    ensures SayTheNote(p, title, summary, lines, ChunksOf(p, title, summary, lines))
  {
    var parts, windows := PassagesSayTheNote(p, title, summary, lines);
  }

  lemma TrailIsEmpty(headings: seq<Heading>)
    ensures Trail(headings) == [] <==> headings == []
  {
  }

  /** One section's passages, window by window. */
  method ChunkSection(title: string, summary: string, section: Section) returns (chunks: seq<Chunk>)
    ensures chunks == ChunksFor(title, section.trail, Windows(SectionWords(summary, section)))
  {
    var words := SectionWords(summary, section);
    chunks := [];
    var start := 0;
    while start < |words|
      invariant start % WINDOW_WORDS == 0 || start >= |words|
      invariant chunks == ChunksFor(title, section.trail, Windows(words[..if start < |words| then start else |words|]))
    {
      var end := if start + WINDOW_WORDS < |words| then start + WINDOW_WORDS else |words|;
      WindowsUpTo(words, start);
      ChunksForAppend(title, section.trail, Windows(words[..start]), words[start..end]);
      chunks := chunks + [ChunkOf(title, section.trail, words[start..end])];
      start := start + WINDOW_WORDS;
    }
    assert words[..|words|] == words;
  }

  method MakeChunks(p: Patterns, title: string, summary: string, lines: seq<string>) returns (chunks: seq<Chunk>)
    ensures chunks == ChunksOf(p, title, summary, lines)
    ensures SayTheNote(p, title, summary, lines, chunks)
  {
    var found := Sections(p, lines);
    chunks := [];
    for i := 0 to |found|
      invariant chunks == ChunksIn(title, summary, found[..i])
    {
      var more := ChunkSection(title, summary, found[i]);
      ChunksInAppend(title, summary, found[..i], found[i]);
      assert found[..i + 1] == found[..i] + [found[i]];
      chunks := chunks + more;
    }
    assert found[..|found|] == found;
    if chunks == [] {
      chunks := [Chunk("", title)];
    }
    ChunksSayTheNote(p, title, summary, lines);
  }
}
