/** Heading-aware chunking of a document into overlapping pieces. */
module Chunking {
  import opened Sums

  datatype Document = Document(id: string, source: string, text: string)

  // The chunk's own id is its document's id together with its ordinal.
  datatype Chunk = Chunk(docId: string, source: string, ordinal: nat, text: string)

  const CHARS_PER_TOKEN := 4

  // ----- Sections

  // One to six '#' and a space, from position i on.
  predicate HashesAt(text: string, i: nat) {
    exists k :: 1 <= k <= 6 && Hashes(text, i, k)
  }

  predicate Hashes(text: string, i: nat, k: nat) {
    i + k < |text| && text[i + k] == ' ' && forall j :: i <= j < i + k ==> text[j] == '#'
  }

  // A heading starts at position i: the marks stand at the start of a line.
  predicate HeadingAt(text: string, i: nat) {
    i < |text| && (i == 0 || text[i - 1] == '\n') && HashesAt(text, i)
  }

  function Marks(n: nat): (s: string)
    ensures |s| == n && forall i :: 0 <= i < n ==> s[i] == '#'
  {
    seq(n, _ => '#')
  }

  /** A line that starts with n marks and then another character is a heading iff n is 1 to 6 and that is a space. */
  lemma HeadingLevels(before: string, n: nat, c: char, rest: string)
    requires c != '#'
    ensures HeadingAt(before + "\n" + Marks(n) + [c] + rest, |before| + 1) <==> 1 <= n <= 6 && c == ' '
    ensures HeadingAt(Marks(n) + [c] + rest, 0) <==> 1 <= n <= 6 && c == ' '
    ensures before != "" && before[|before| - 1] != '\n' ==> !HeadingAt(before + Marks(n) + [c] + rest, |before|)
  {
    MarksAt(before + "\n", n, c, rest);
    MarksAt("", n, c, rest);
    assert "" + Marks(n) + [c] + rest == Marks(n) + [c] + rest;
    assert (before + "\n")[|before|] == '\n';
  }

  lemma MarksAt(front: string, n: nat, c: char, rest: string)
    requires c != '#'
    ensures HashesAt(front + Marks(n) + [c] + rest, |front|) <==> 1 <= n <= 6 && c == ' '
  {
    var text := front + Marks(n) + [c] + rest;
    assert text[|front| + n] == c;
    assert forall i :: |front| <= i < |front| + n ==> text[i] == Marks(n)[i - |front|];
    if 1 <= n <= 6 && c == ' ' {
      assert Hashes(text, |front|, n);
    }
  }

  predicate Ascending(positions: seq<nat>, limit: nat) {
    && (forall i :: 0 <= i < |positions| ==> positions[i] <= limit)
    && (forall i, j :: 0 <= i < j < |positions| ==> positions[i] < positions[j])
  }

  function HeadingStarts(text: string, from: nat): (r: seq<nat>)
    requires from <= |text|
    ensures Ascending(r, |text|)
    ensures forall i :: 0 <= i < |r| ==> from <= r[i] < |text| && HeadingAt(text, r[i])
    decreases |text| - from
  {
    if from == |text| then []
    else (if HeadingAt(text, from) then [from] else []) + HeadingStarts(text, from + 1)
  }

  function SectionBounds(text: string, starts: seq<nat>): (r: seq<nat>)
    requires starts != [] && Ascending(starts, |text|) && starts[|starts| - 1] < |text|
    ensures |r| >= 2 && Ascending(r, |text|) && r[0] == 0 && r[|r| - 1] == |text|
  {
    (if starts[0] != 0 then [0] else []) + starts + [|text|]
  }

  function Slices(text: string, bounds: seq<nat>): seq<string>
    requires Ascending(bounds, |text|)
  {
    if |bounds| < 2 then [] else [text[bounds[0]..bounds[1]]] + Slices(text, bounds[1..])
  }

  function SplitSections(text: string): seq<string> {
    var starts := HeadingStarts(text, 0);
    if starts == [] then [text] else Slices(text, SectionBounds(text, starts))
  }

  function Concat(parts: seq<string>): string {
    if parts == [] then "" else parts[0] + Concat(parts[1..])
  }

  // What the section bounds of a document with headings are: its two ends and every heading.
  ghost predicate CutsAtHeadings(text: string, bounds: seq<nat>) {
    && |bounds| >= 2 && Ascending(bounds, |text|) && bounds[0] == 0 && bounds[|bounds| - 1] == |text|
    && (forall k :: 0 < k < |bounds| - 1 ==> HeadingAt(text, bounds[k]))
    && (forall i: nat :: HeadingAt(text, i) ==> i in bounds)
  }

  lemma {:induction false} SlicesConcat(text: string, bounds: seq<nat>)
    requires Ascending(bounds, |text|) && bounds != []
    ensures bounds[0] <= bounds[|bounds| - 1]
    ensures Concat(Slices(text, bounds)) == text[bounds[0]..bounds[|bounds| - 1]]
  {
    if |bounds| == 1 {
      assert Slices(text, bounds) == [];
    } else {
      SlicesConcat(text, bounds[1..]);
    }
  }

  lemma {:induction false} SliceAt(text: string, bounds: seq<nat>, k: nat)
    requires Ascending(bounds, |text|) && k + 1 < |bounds|
    ensures |Slices(text, bounds)| == |bounds| - 1
    ensures Slices(text, bounds)[k] == text[bounds[k]..bounds[k + 1]]
  {
    if k > 0 {
      SliceAt(text, bounds[1..], k - 1);
    } else if |bounds| > 2 {
      SliceAt(text, bounds[1..], 0);
    }
  }

  lemma {:induction false} StartsComplete(text: string, from: nat, i: nat)
    requires from <= i < |text| && HeadingAt(text, i)
    ensures i in HeadingStarts(text, from)
    decreases i - from
  {
    if from < i {
      StartsComplete(text, from + 1, i);
    }
  }

  lemma SectionBoundsCut(text: string, starts: seq<nat>)
    requires starts == HeadingStarts(text, 0) && starts != []
    ensures CutsAtHeadings(text, SectionBounds(text, starts))
  {
    var bounds := SectionBounds(text, starts);
    forall k | 0 < k < |bounds| - 1 ensures HeadingAt(text, bounds[k]) {
      assert bounds[k] == starts[if starts[0] != 0 then k - 1 else k];
    }
    forall i: nat | HeadingAt(text, i) ensures i in bounds {
      StartsComplete(text, 0, i);
      AmongBounds(text, starts, i);
    }
  }

  lemma AmongBounds(text: string, starts: seq<nat>, i: nat)
    requires starts != [] && Ascending(starts, |text|) && starts[|starts| - 1] < |text| && i in starts
    ensures i in SectionBounds(text, starts)
  {
  }

  // A heading of the document that starts a slice is a heading of the slice: no heading mark crosses a line.
  lemma HeadingOfSlice(text: string, a: nat, b: nat)
    requires a < b <= |text| && HeadingAt(text, a) && (b < |text| ==> text[b - 1] == '\n')
    ensures HeadingAt(text[a..b], 0)
  {
    var k :| 1 <= k <= 6 && Hashes(text, a, k);
    assert a + k < b;
    assert Hashes(text[a..b], 0, k);
  }

  lemma HeadingInSlice(text: string, a: nat, b: nat, i: nat)
    requires a <= b <= |text| && 0 < i
    ensures HeadingAt(text[a..b], i) ==> a + i < b && HeadingAt(text, a + i)
  {
    var s := text[a..b];
    if HeadingAt(s, i) {
      var k :| 1 <= k <= 6 && Hashes(s, i, k);
      assert forall j :: a + i <= j < a + i + k ==> text[j] == s[j - a];
      assert Hashes(text, a + i, k);
      assert text[a + i - 1] == s[i - 1];
    }
  }

  lemma NothingBetween(positions: seq<nat>, limit: nat, k: nat, p: nat)
    requires Ascending(positions, limit) && k + 1 < |positions|
    ensures p in positions ==> p <= positions[k] || positions[k + 1] <= p
  {
  }

  lemma NoOtherHeading(text: string, bounds: seq<nat>, k: nat, i: nat)
    requires CutsAtHeadings(text, bounds) && k + 1 < |bounds| && 0 < i
    ensures !HeadingAt(text[bounds[k]..bounds[k + 1]], i)
  {
    HeadingInSlice(text, bounds[k], bounds[k + 1], i);
    NothingBetween(bounds, |text|, k, bounds[k] + i);
  }

  lemma StartsWithHeading(text: string, bounds: seq<nat>, k: nat)
    requires CutsAtHeadings(text, bounds) && 0 < k && k + 1 < |bounds|
    ensures HeadingAt(text[bounds[k]..bounds[k + 1]], 0)
  {
    if k + 1 < |bounds| - 1 {
      assert HeadingAt(text, bounds[k + 1]);
    }
    HeadingOfSlice(text, bounds[k], bounds[k + 1]);
  }

  lemma HeadedSections(text: string, bounds: seq<nat>, sections: seq<string>)
    requires CutsAtHeadings(text, bounds) && sections == Slices(text, bounds)
    ensures Concat(sections) == text
    ensures forall k :: 1 <= k < |sections| ==> HeadingAt(sections[k], 0)
    ensures forall k, i: nat :: 0 <= k < |sections| && 0 < i ==> !HeadingAt(sections[k], i)
  {
    SlicesConcat(text, bounds);
    SliceAt(text, bounds, 0);
    forall k | 1 <= k < |sections| ensures HeadingAt(sections[k], 0) {
      SliceAt(text, bounds, k);
      StartsWithHeading(text, bounds, k);
    }
    forall k, i: nat | 0 <= k < |sections| && 0 < i ensures !HeadingAt(sections[k], i) {
      SliceAt(text, bounds, k);
      NoOtherHeading(text, bounds, k, i);
    }
  }

  /** The sections are the document cut exactly before its headings: they concatenate back to it, every section but the
      first starts with a heading, and no section has a heading anywhere else. */
  lemma SectionsPartition(text: string, sections: seq<string>)
    requires sections == SplitSections(text)
    ensures Concat(sections) == text
    ensures forall k :: 1 <= k < |sections| ==> HeadingAt(sections[k], 0)
    ensures forall k, i: nat :: 0 <= k < |sections| && 0 < i ==> !HeadingAt(sections[k], i)
  {
    var starts := HeadingStarts(text, 0);
    if starts == [] {
      forall i: nat | 0 < i ensures !HeadingAt(text, i) {
        if HeadingAt(text, i) {
          StartsComplete(text, 0, i);
        }
      }
    } else {
      SectionBoundsCut(text, starts);
      HeadedSections(text, SectionBounds(text, starts), sections);
    }
  }

  // ----- Paragraphs

  // The characters that strip() removes.
  predicate IsSpace(c: char) {
    var n := c as int;
    || 0x09 <= n <= 0x0D || 0x1C <= n <= 0x20 || n == 0x85 || n == 0xA0 || n == 0x1680 || 0x2000 <= n <= 0x200A
    || n == 0x2028 || n == 0x2029 || n == 0x202F || n == 0x205F || n == 0x3000
  }

  function TrimStart(s: string): string {
    if s != "" && IsSpace(s[0]) then TrimStart(s[1..]) else s
  }

  function TrimEnd(s: string): string {
    if s == "" then ""
    else
      var rest := TrimEnd(s[1..]);
      if rest == "" && IsSpace(s[0]) then "" else [s[0]] + rest
  }

  function Strip(s: string): string {
    TrimEnd(TrimStart(s))
  }

  // A non-empty text that strip() leaves alone.
  predicate Stripped(p: string) {
    p != "" && !IsSpace(p[0]) && !IsSpace(p[|p| - 1])
  }

  const BLANK_LINE := "\n\n"

  // section.split("\n\n"): cut at the blank lines, from the left, without overlap.
  function SplitAtBlankLines(s: string): (r: seq<string>)
    ensures r != []
  {
    if |s| < 2 then [s]
    else if s[0] == '\n' && s[1] == '\n' then [""] + SplitAtBlankLines(s[2..])
    else
      var rest := SplitAtBlankLines(s[1..]);
      [[s[0]] + rest[0]] + rest[1..]
  }

  // Each part stripped, the empty ones dropped.
  function StripAll(parts: seq<string>): seq<string> {
    if parts == [] then []
    else (if Strip(parts[0]) != "" then [Strip(parts[0])] else []) + StripAll(parts[1..])
  }

  function SplitParagraphs(section: string): seq<string> {
    StripAll(SplitAtBlankLines(section))
  }

  function Join(parts: seq<string>): string
    requires parts != []
  {
    if |parts| == 1 then parts[0] else parts[0] + BLANK_LINE + Join(parts[1..])
  }

  predicate HasBlankLine(s: string) {
    exists i :: 0 <= i < |s| - 1 && s[i] == '\n' && s[i + 1] == '\n'
  }

  /** Splitting at blank lines loses nothing and leaves none. */
  lemma {:induction false} BlankLinesSplit(s: string)
    ensures Join(SplitAtBlankLines(s)) == s
    ensures forall i :: 0 <= i < |SplitAtBlankLines(s)| ==> !HasBlankLine(SplitAtBlankLines(s)[i])
    decreases |s|
  {
    if |s| < 2 {
    } else if s[0] == '\n' && s[1] == '\n' {
      BlankLinesSplit(s[2..]);
    } else {
      BlankLinesSplit(s[1..]);
    }
  }

  lemma {:induction false} TrimStartAround(u: string, s: string)
    requires s != "" && !IsSpace(s[0])
    ensures TrimStart(u + s) == TrimStart(u) + s
  {
    if u == "" {
      assert u + s == s;
    } else {
      assert (u + s)[1..] == u[1..] + s;
      TrimStartAround(u[1..], s);
    }
  }

  lemma {:induction false} TrimEndAround(s: string, v: string)
    requires s != "" && !IsSpace(s[|s| - 1])
    ensures TrimEnd(s + v) == s + TrimEnd(v)
  {
    assert (s + v)[1..] == s[1..] + v;
    if |s| == 1 {
      assert s[1..] + v == v;
    } else {
      TrimEndAround(s[1..], v);
    }
  }

  /** A stripped text inside a larger one survives stripping that one. */
  lemma StripAround(u: string, p: string, v: string)
    requires Stripped(p)
    ensures Strip(u + p + v) == TrimStart(u) + p + TrimEnd(v)
  {
    assert u + p + v == u + (p + v);
    TrimStartAround(u, p + v);
    assert TrimStart(u) + (p + v) == (TrimStart(u) + p) + v;
    TrimEndAround(TrimStart(u) + p, v);
  }

  lemma {:induction false} TrimEndStops(s: string)
    ensures TrimEnd(s) != "" ==> s != "" && TrimEnd(s)[0] == s[0] && !IsSpace(TrimEnd(s)[|TrimEnd(s)| - 1])
  {
    if s != "" {
      TrimEndStops(s[1..]);
    }
  }

  lemma {:induction false} TrimStartStops(s: string)
    ensures TrimStart(s) != "" ==> !IsSpace(TrimStart(s)[0])
  {
    if s != "" {
      TrimStartStops(s[1..]);
    }
  }

  lemma StripStops(s: string)
    ensures Strip(s) != "" ==> Stripped(Strip(s))
  {
    TrimStartStops(s);
    TrimEndStops(TrimStart(s));
  }

  /** Every paragraph is non-empty and stripped. */
  lemma {:induction false} ParagraphsStripped(parts: seq<string>)
    ensures forall i :: 0 <= i < |StripAll(parts)| ==> Stripped(StripAll(parts)[i])
  {
    if parts != [] {
      StripStops(parts[0]);
      ParagraphsStripped(parts[1..]);
    }
  }

  // ----- The paragraphs within the text -----

  predicate AllSpace(s: string) {
    forall i :: 0 <= i < |s| ==> IsSpace(s[i])
  }

  // gaps[0] + paras[0] + gaps[1] + ... + paras[n - 1] + gaps[n]
  function Interleave(gaps: seq<string>, paras: seq<string>): string
    requires |gaps| == |paras| + 1
  {
    if paras == [] then gaps[0] else gaps[0] + paras[0] + Interleave(gaps[1..], paras[1..])
  }

  lemma {:induction false} TrimStartCuts(s: string) returns (lead: string)
    ensures s == lead + TrimStart(s) && AllSpace(lead)
  {
    if s != "" && IsSpace(s[0]) {
      var rest := TrimStartCuts(s[1..]);
      lead := [s[0]] + rest;
      Associate([s[0]], rest, TrimStart(s[1..]));
      assert s == [s[0]] + s[1..];
    } else {
      lead := "";
    }
  }

  lemma {:induction false} TrimEndCuts(s: string) returns (trail: string)
    ensures s == TrimEnd(s) + trail && AllSpace(trail)
  {
    if s == "" {
      trail := "";
    } else {
      trail := TrimEndCuts(s[1..]);
      assert s == [s[0]] + s[1..];
      if TrimEnd(s) == "" {
        assert s[1..] == trail;
        trail := s;
      } else {
        Associate([s[0]], TrimEnd(s[1..]), trail);
      }
    }
  }

  // Stripping cuts space off both ends.
  lemma StripCuts(s: string) returns (lead: string, trail: string)
    ensures s == lead + Strip(s) + trail && AllSpace(lead) && AllSpace(trail)
  {
    lead := TrimStartCuts(s);
    trail := TrimEndCuts(TrimStart(s));
  }

  // Two or more gaps: the inner ones separate paragraphs.
  predicate Separates(gaps: seq<string>) {
    forall i :: 0 < i < |gaps| - 1 ==> HasBlankLine(gaps[i])
  }

  predicate AllGaps(gaps: seq<string>) {
    forall i :: 0 <= i < |gaps| ==> AllSpace(gaps[i])
  }

  lemma BlankBetween(a: string, b: string)
    ensures HasBlankLine(a + BLANK_LINE + b)
    ensures AllSpace(a) && AllSpace(b) ==> AllSpace(a + BLANK_LINE + b)
  {
    var s := a + BLANK_LINE + b;
    assert s[|a|] == '\n' && s[|a| + 1] == '\n';
  }

  lemma BlankCarries(lead: string, p: string, trail: string)
    ensures HasBlankLine(p) ==> HasBlankLine(lead + p + trail)
  {
    if i :| 0 <= i < |p| - 1 && p[i] == '\n' && p[i + 1] == '\n' {
      var s := lead + p + trail;
      assert s[|lead| + i] == '\n' && s[|lead| + i + 1] == '\n';
    }
  }

  // One more part in front of a text already laid out: it joins the first gap, or is a paragraph with gaps around it.
  lemma GapsCons(part: string, rest: string, gaps: seq<string>, paras: seq<string>) returns (all: seq<string>)
    requires |gaps| == |paras| + 1 && rest == Interleave(gaps, paras) && AllGaps(gaps) && Separates(gaps)
    ensures var ps := (if Strip(part) != "" then [Strip(part)] else []) + paras;
      && |all| == |ps| + 1 && part + BLANK_LINE + rest == Interleave(all, ps) && AllGaps(all) && Separates(all)
  {
    var lead, trail := StripCuts(part);
    if Strip(part) == "" {
      var first := part + BLANK_LINE + gaps[0];
      BlankBetween(part, gaps[0]);
      assert part == lead + trail;
      all := [first] + gaps[1..];
      assert all[1..] == gaps[1..] && [] + paras == paras;
    } else {
      var p, second := Strip(part), trail + BLANK_LINE + gaps[0];
      BlankBetween(trail, gaps[0]);
      all := [lead, second] + gaps[1..];
      var ps := [p] + paras;
      assert ps[1..] == paras && all[1..] == [second] + gaps[1..] && all[1..][1..] == gaps[1..];
      InterleaveFirst(second, gaps, paras, trail + BLANK_LINE);
      assert Interleave(all, ps) == lead + p + Interleave(all[1..], paras);
    }
  }

  // Growing the first gap in front.
  lemma InterleaveFirst(first: string, gaps: seq<string>, paras: seq<string>, front: string)
    requires |gaps| == |paras| + 1 && first == front + gaps[0]
    ensures Interleave([first] + gaps[1..], paras) == front + Interleave(gaps, paras)
  {
    assert ([first] + gaps[1..])[1..] == gaps[1..];
  }

  lemma {:induction false} GapsOf(parts: seq<string>) returns (gaps: seq<string>)
    requires parts != []
    ensures |gaps| == |StripAll(parts)| + 1 && Join(parts) == Interleave(gaps, StripAll(parts))
    ensures AllGaps(gaps) && Separates(gaps)
  {
    if |parts| == 1 {
      var lead, trail := StripCuts(parts[0]);
      assert StripAll(parts[1..]) == [];
      if Strip(parts[0]) == "" {
        gaps := [parts[0]];
        assert parts[0] == lead + trail;
      } else {
        gaps := [lead, trail];
        assert gaps[1..] == [trail];
      }
    } else {
      var rest := GapsOf(parts[1..]);
      gaps := GapsCons(parts[0], Join(parts[1..]), rest, StripAll(parts[1..]));
    }
  }

  lemma {:induction false} NoBlankInside(parts: seq<string>)
    requires forall i :: 0 <= i < |parts| ==> !HasBlankLine(parts[i])
    ensures forall i :: 0 <= i < |StripAll(parts)| ==> !HasBlankLine(StripAll(parts)[i])
  {
    if parts != [] {
      var lead, trail := StripCuts(parts[0]);
      BlankCarries(lead, Strip(parts[0]), trail);
      NoBlankInside(parts[1..]);
    }
  }

  /** The paragraphs of a section are what stands in it between blank lines: the section is its paragraphs in order with
      gaps around them that hold nothing but space, those between two paragraphs a blank line too; and no paragraph is
      empty, has space at its ends or holds a blank line. */
  lemma ParagraphsOfSection(section: string, paras: seq<string>) returns (gaps: seq<string>)
    requires paras == SplitParagraphs(section)
    ensures |gaps| == |paras| + 1 && section == Interleave(gaps, paras) && AllGaps(gaps) && Separates(gaps)
    ensures forall i :: 0 <= i < |paras| ==> Stripped(paras[i]) && !HasBlankLine(paras[i])
  {
    var parts := SplitAtBlankLines(section);
    BlankLinesSplit(section);
    gaps := GapsOf(parts);
    ParagraphsStripped(parts);
    NoBlankInside(parts);
  }

  // Two texts laid out one after the other: the gaps between them join.
  lemma {:induction false} InterleaveConcat(g: seq<string>, p: seq<string>, h: seq<string>, q: seq<string>)
    returns (gaps: seq<string>)
    requires |g| == |p| + 1 && |h| == |q| + 1 && AllGaps(g) && AllGaps(h)
    ensures |gaps| == |p + q| + 1 && Interleave(g, p) + Interleave(h, q) == Interleave(gaps, p + q) && AllGaps(gaps)
    decreases p
  {
    if p == [] {
      gaps := [g[0] + h[0]] + h[1..];
      InterleaveFirst(g[0] + h[0], h, q, g[0]);
      assert p + q == q;
    } else {
      var rest := InterleaveConcat(g[1..], p[1..], h, q);
      gaps := [g[0]] + rest;
      assert (p + q)[0] == p[0] && (p + q)[1..] == p[1..] + q && gaps[1..] == rest;
      Associate(g[0] + p[0], Interleave(g[1..], p[1..]), Interleave(h, q));
    }
  }
}
