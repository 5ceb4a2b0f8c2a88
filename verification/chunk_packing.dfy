/** Packing the paragraphs of each section into chunks with tail overlap. */
module ChunkPacking {
  import opened Chunking
  import opened Sums

  // Python's s[-n:].
  function Tail(s: string, n: int): string {
    if n > 0 then (if n <= |s| then s[|s| - n..] else s)
    else if -n <= |s| then s[-n..]
    else ""
  }

  // What a new piece starts with: the end of the one before it.
  function Carry(piece: string, overlap: int): string {
    if overlap != 0 then Tail(piece, overlap) + BLANK_LINE else ""
  }

  function Extend(piece: string, para: string): string {
    piece + para + BLANK_LINE
  }

  // The pieces still to come for a section whose open piece is `current`.
  function Pack(paras: seq<string>, current: string, target: int, overlap: int): seq<string> {
    if paras == [] then
      if Strip(current) != "" then [current] else []
    else if current != "" && |current| + |paras[0]| > target then
      [current] + Pack(paras[1..], Extend(Carry(current, overlap), paras[0]), target, overlap)
    else
      Pack(paras[1..], Extend(current, paras[0]), target, overlap)
  }

  function PackAll(sections: seq<string>, target: int, overlap: int): seq<string> {
    if sections == [] then []
    else Pack(SplitParagraphs(sections[0]), "", target, overlap) + PackAll(sections[1..], target, overlap)
  }

  function Pieces(text: string, targetTokens: int, overlapTokens: int): seq<string> {
    PackAll(SplitSections(text), targetTokens * CHARS_PER_TOKEN, overlapTokens * CHARS_PER_TOKEN)
  }

  lemma PackStep(paras: seq<string>, k: nat, current: string, target: int, overlap: int)
    requires k < |paras|
    ensures Pack(paras[k..], current, target, overlap)
         == if current != "" && |current| + |paras[k]| > target
            then [current] + Pack(paras[k + 1..], Extend(Carry(current, overlap), paras[k]), target, overlap)
            else Pack(paras[k + 1..], Extend(current, paras[k]), target, overlap)
  {
    var rest := paras[k..];
    assert rest[0] == paras[k] && rest[1..] == paras[k + 1..];
  }

  // One section: the inner loop of the chunker.
  method PackSection(section: string, target: int, overlap: int) returns (pieces: seq<string>)
    ensures pieces == Pack(SplitParagraphs(section), "", target, overlap)
  {
    var paras, current := SplitParagraphs(section), "";
    pieces := [];
    for k := 0 to |paras|
      invariant pieces + Pack(paras[k..], current, target, overlap) == Pack(paras, "", target, overlap)
    {
      PackStep(paras, k, current, target, overlap);
      if current != "" && |current| + |paras[k]| > target {
        var next := if overlap != 0 then Tail(current, overlap) + BLANK_LINE else "";
        Associate(pieces, [current], Pack(paras[k + 1..], Extend(next, paras[k]), target, overlap));
        pieces := pieces + [current];
        current := next;
      }
      current := Extend(current, paras[k]);
    }
    if Strip(current) != "" {
      pieces := pieces + [current];
    }
  }

  lemma PackAllStep(sections: seq<string>, s: nat, target: int, overlap: int)
    requires s < |sections|
    ensures PackAll(sections[s..], target, overlap)
         == Pack(SplitParagraphs(sections[s]), "", target, overlap) + PackAll(sections[s + 1..], target, overlap)
  {
    var rest := sections[s..];
    assert rest[0] == sections[s] && rest[1..] == sections[s + 1..];
  }

  /** The chunks are the stripped pieces, numbered from 0. */
  method ChunkDocument(doc: Document, targetTokens: int, overlapTokens: int) returns (chunks: seq<Chunk>)
    ensures |chunks| == |Pieces(doc.text, targetTokens, overlapTokens)|
    ensures forall i :: 0 <= i < |chunks| ==>
              chunks[i] == Chunk(doc.id, doc.source, i, Strip(Pieces(doc.text, targetTokens, overlapTokens)[i]))
  {
    var target, overlap := targetTokens * CHARS_PER_TOKEN, overlapTokens * CHARS_PER_TOKEN;
    var sections, pieces := SplitSections(doc.text), [];
    for s := 0 to |sections|
      invariant pieces + PackAll(sections[s..], target, overlap) == PackAll(sections, target, overlap)
    {
      PackAllStep(sections, s, target, overlap);
      var more := PackSection(sections[s], target, overlap);
      Associate(pieces, more, PackAll(sections[s + 1..], target, overlap));
      pieces := pieces + more;
    }
    chunks := seq(|pieces|, i requires 0 <= i < |pieces| => Chunk(doc.id, doc.source, i, Strip(pieces[i])));
  }

  // ----- What the pieces are: each section's paragraphs, in consecutive groups

  function Body(paras: seq<string>): string {
    if paras == [] then "" else Extend("", paras[0]) + Body(paras[1..])
  }

  function Flatten(groups: seq<seq<string>>): seq<string> {
    if groups == [] then [] else groups[0] + Flatten(groups[1..])
  }

  // The pieces that the groups of one section make: each the end of the one before, then its own paragraphs.
  function Render(groups: seq<seq<string>>, carry: string, overlap: int): seq<string> {
    if groups == [] then []
    else
      var piece := carry + Body(groups[0]);
      [piece] + Render(groups[1..], Carry(piece, overlap), overlap)
  }

  // Every paragraph of a group after its first still fitted when it was added.
  predicate Fits(carry: string, group: seq<string>, target: int) {
    forall i :: 1 <= i < |group| ==> |carry + Body(group[..i])| + |group[i]| <= target
  }

  // No group is empty, every paragraph in one fitted, and a new group starts only where the next paragraph did not fit.
  predicate Packed(groups: seq<seq<string>>, carry: string, target: int, overlap: int) {
    groups == []
    || (&& groups[0] != []
        && Fits(carry, groups[0], target)
        && (|groups| > 1 ==> groups[1] != [] && |carry + Body(groups[0])| + |groups[1][0]| > target)
        && Packed(groups[1..], Carry(carry + Body(groups[0]), overlap), target, overlap))
  }

  // The groups of a section whose open group, begun after `carry`, is `group`.
  function Groups(paras: seq<string>, carry: string, group: seq<string>, target: int, overlap: int): seq<seq<string>> {
    if paras == [] then
      if group != [] then [group] else []
    else if group != [] && |carry + Body(group)| + |paras[0]| > target then
      [group] + Groups(paras[1..], Carry(carry + Body(group), overlap), [paras[0]], target, overlap)
    else
      Groups(paras[1..], carry, group + [paras[0]], target, overlap)
  }

  lemma {:induction false} BodyAppend(group: seq<string>, para: string)
    ensures Body(group + [para]) == Extend(Body(group), para)
  {
    if group == [] {
      assert group + [para] == [para];
      assert Body([para][1..]) == "";
    } else {
      assert (group + [para])[1..] == group[1..] + [para];
      BodyAppend(group[1..], para);
    }
  }

  lemma GrowGroup(carry: string, group: seq<string>, para: string)
    ensures carry + Body(group + [para]) == Extend(carry + Body(group), para)
  {
    BodyAppend(group, para);
  }

  lemma NewGroup(carry: string, para: string)
    ensures carry + Body([para]) == Extend(carry, para)
  {
    GrowGroup(carry, [], para);
    assert [] + [para] == [para] && carry + Body([]) == carry;
  }

  predicate AllStripped(paras: seq<string>) {
    forall i :: 0 <= i < |paras| ==> Stripped(paras[i])
  }

  lemma OpenPieceCounts(carry: string, group: seq<string>)
    requires group != [] && AllStripped(group)
    ensures Strip(carry + Body(group)) != ""
  {
    var p, tail := group[0], BLANK_LINE + Body(group[1..]);
    assert Extend("", p) == p + BLANK_LINE;
    assert Body(group) == p + tail by {
      assert (p + BLANK_LINE) + Body(group[1..]) == p + tail;
    }
    assert carry + (p + tail) == carry + p + tail;
    StripAround(carry, p, tail);
  }

  // With no paragraph in it yet, the open piece is empty.
  predicate Opened(carry: string, group: seq<string>) {
    group == [] ==> carry == ""
  }

  lemma {:induction false} GroupsRender(paras: seq<string>, carry: string, group: seq<string>, target: int, overlap: int,
                                        current: string)
    requires AllStripped(paras) && AllStripped(group) && Opened(carry, group) && current == carry + Body(group)
    ensures Render(Groups(paras, carry, group, target, overlap), carry, overlap) == Pack(paras, current, target, overlap)
    decreases |paras|
  {
    if group != [] {
      OpenPieceCounts(carry, group);
    }
    if paras == [] {
      if group != [] {
        assert Render([group], carry, overlap) == [current];
      }
    } else if group != [] && |current| + |paras[0]| > target {
      var next := Carry(current, overlap);
      NewGroup(next, paras[0]);
      GroupsRender(paras[1..], next, [paras[0]], target, overlap, Extend(next, paras[0]));
    } else {
      GrowGroup(carry, group, paras[0]);
      GroupsRender(paras[1..], carry, group + [paras[0]], target, overlap, Extend(current, paras[0]));
    }
  }

  lemma FlattenCons(group: seq<string>, later: seq<seq<string>>)
    ensures Flatten([group] + later) == group + Flatten(later)
  {
    assert ([group] + later)[1..] == later;
  }

  lemma Shift(group: seq<string>, paras: seq<string>)
    requires paras != []
    ensures (group + [paras[0]]) + paras[1..] == group + paras
    ensures group + ([paras[0]] + paras[1..]) == group + paras
  {
  }

  lemma {:induction false} GroupsFlatten(paras: seq<string>, carry: string, group: seq<string>, target: int, overlap: int)
    ensures Flatten(Groups(paras, carry, group, target, overlap)) == group + paras
    decreases |paras|
  {
    if paras == [] {
      if group != [] {
        FlattenCons(group, []);
        assert [group] + [] == [group];
      }
    } else if group != [] && |carry + Body(group)| + |paras[0]| > target {
      var next := Carry(carry + Body(group), overlap);
      GroupsFlatten(paras[1..], next, [paras[0]], target, overlap);
      FlattenCons(group, Groups(paras[1..], next, [paras[0]], target, overlap));
      Shift(group, paras);
    } else {
      GroupsFlatten(paras[1..], carry, group + [paras[0]], target, overlap);
      Shift(group, paras);
    }
  }

  lemma {:induction false} GroupsPacked(paras: seq<string>, carry: string, group: seq<string>, target: int, overlap: int)
    requires Fits(carry, group, target)
    ensures Packed(Groups(paras, carry, group, target, overlap), carry, target, overlap)
    ensures group != [] ==> Groups(paras, carry, group, target, overlap) != []
                            && group <= Groups(paras, carry, group, target, overlap)[0]
    decreases |paras|
  {
    if paras == [] {
    } else if group != [] && |carry + Body(group)| + |paras[0]| > target {
      GroupsPacked(paras[1..], Carry(carry + Body(group), overlap), [paras[0]], target, overlap);
    } else {
      var grown := group + [paras[0]];
      forall i | 1 <= i < |grown| ensures |carry + Body(grown[..i])| + |grown[i]| <= target {
        assert grown[..i] == group[..i];
        assert i == |group| ==> group[..i] == group;
      }
      GroupsPacked(paras[1..], carry, grown, target, overlap);
    }
  }

  lemma {:induction false} FillGroup(group: seq<string>, i: nat, rest: seq<string>, carry: string, target: int, overlap: int)
    requires 1 <= i <= |group| && Fits(carry, group, target)
    ensures Groups(group[i..] + rest, carry, group[..i], target, overlap) == Groups(rest, carry, group, target, overlap)
    decreases |group| - i
  {
    if i == |group| {
      assert group[i..] + rest == rest && group[..i] == group;
    } else {
      var left := group[i..] + rest;
      assert left[0] == group[i] && left[1..] == group[i + 1..] + rest;
      assert group[..i] + [group[i]] == group[..i + 1];
      FillGroup(group, i + 1, rest, carry, target, overlap);
    }
  }

  lemma FirstParagraph(group: seq<string>, rest: seq<string>, carry: string, target: int, overlap: int)
    requires group != []
    ensures Groups(group + rest, carry, [], target, overlap)
         == Groups(group[1..] + rest, carry, group[..1], target, overlap)
  {
    var paras := group + rest;
    assert paras[0] == group[0] && paras[1..] == group[1..] + rest;
    assert [] + [group[0]] == group[..1];
  }

  /** A packed division of the paragraphs is the only one: it is what the chunker makes of them. */
  lemma {:induction false} PackedIsUnique(groups: seq<seq<string>>, carry: string, target: int, overlap: int)
    requires Packed(groups, carry, target, overlap)
    ensures Groups(Flatten(groups), carry, [], target, overlap) == groups
  {
    if groups != [] {
      var group, rest := groups[0], Flatten(groups[1..]);
      FirstParagraph(group, rest, carry, target, overlap);
      FillGroup(group, 1, rest, carry, target, overlap);
      PackedIsUnique(groups[1..], Carry(carry + Body(group), overlap), target, overlap);
      if |groups| > 1 {
        assert rest[0] == groups[1][0];
        FirstParagraph(rest, [], Carry(carry + Body(group), overlap), target, overlap);
        assert rest + [] == rest && rest[1..] + [] == rest[1..] && rest[..1] == [rest[0]];
      }
    }
  }

  // ----- Whole documents

  function Layout(sections: seq<string>, target: int, overlap: int): seq<seq<seq<string>>> {
    if sections == [] then []
    else [Groups(SplitParagraphs(sections[0]), "", [], target, overlap)] + Layout(sections[1..], target, overlap)
  }

  function RenderAll(layout: seq<seq<seq<string>>>, overlap: int): seq<string> {
    if layout == [] then [] else Render(layout[0], "", overlap) + RenderAll(layout[1..], overlap)
  }

  // One list of groups a section, which divides that section's own paragraphs greedily.
  predicate LaysOut(layout: seq<seq<seq<string>>>, sections: seq<string>, target: int, overlap: int) {
    && |layout| == |sections|
    && (forall s :: 0 <= s < |layout| ==> Flatten(layout[s]) == SplitParagraphs(sections[s]))
    && (forall s :: 0 <= s < |layout| ==> Packed(layout[s], "", target, overlap))
  }

  lemma SectionLaidOut(section: string, target: int, overlap: int, groups: seq<seq<string>>)
    requires groups == Groups(SplitParagraphs(section), "", [], target, overlap)
    ensures Flatten(groups) == SplitParagraphs(section) && Packed(groups, "", target, overlap)
    ensures Render(groups, "", overlap) == Pack(SplitParagraphs(section), "", target, overlap)
  {
    var paras := SplitParagraphs(section);
    ParagraphsStripped(SplitAtBlankLines(section));
    GroupsFlatten(paras, "", [], target, overlap);
    assert [] + paras == paras;
    GroupsPacked(paras, "", [], target, overlap);
    assert "" + Body([]) == "";
    GroupsRender(paras, "", [], target, overlap, "");
  }

  lemma {:induction false} SectionsLaidOut(sections: seq<string>, target: int, overlap: int)
    ensures LaysOut(Layout(sections, target, overlap), sections, target, overlap)
    ensures RenderAll(Layout(sections, target, overlap), overlap) == PackAll(sections, target, overlap)
  {
    if sections != [] {
      SectionLaidOut(sections[0], target, overlap, Groups(SplitParagraphs(sections[0]), "", [], target, overlap));
      SectionsLaidOut(sections[1..], target, overlap);
    }
  }

  lemma LaysOutTail(layout: seq<seq<seq<string>>>, sections: seq<string>, target: int, overlap: int)
    requires LaysOut(layout, sections, target, overlap) && layout != []
    ensures LaysOut(layout[1..], sections[1..], target, overlap)
    ensures Flatten(layout[0]) == SplitParagraphs(sections[0]) && Packed(layout[0], "", target, overlap)
  {
  }

  lemma {:induction false} LayoutIsUnique(layout: seq<seq<seq<string>>>, sections: seq<string>, target: int, overlap: int)
    requires LaysOut(layout, sections, target, overlap)
    ensures layout == Layout(sections, target, overlap)
  {
    if layout != [] {
      LaysOutTail(layout, sections, target, overlap);
      LayoutIsUnique(layout[1..], sections[1..], target, overlap);
      assert layout[0] == Groups(SplitParagraphs(sections[0]), "", [], target, overlap) by {
        PackedIsUnique(layout[0], "", target, overlap);
      }
      assert layout == [layout[0]] + layout[1..];
    }
  }

  /** The pieces of a document are exactly those of the one layout that divides each section's own paragraphs into
      consecutive groups, closing a group only where the next paragraph would not fit: no piece mixes sections. */
  lemma PiecesFollowLayout(text: string, targetTokens: int, overlapTokens: int, layout: seq<seq<seq<string>>>)
    ensures var target, overlap := targetTokens * CHARS_PER_TOKEN, overlapTokens * CHARS_PER_TOKEN;
            && (LaysOut(layout, SplitSections(text), target, overlap)
                <==> layout == Layout(SplitSections(text), target, overlap))
            && (LaysOut(layout, SplitSections(text), target, overlap)
                ==> RenderAll(layout, overlap) == Pieces(text, targetTokens, overlapTokens))
  {
    var sections, target, overlap := SplitSections(text), targetTokens * CHARS_PER_TOKEN, overlapTokens * CHARS_PER_TOKEN;
    SectionsLaidOut(sections, target, overlap);
    if LaysOut(layout, sections, target, overlap) {
      LayoutIsUnique(layout, sections, target, overlap);
    }
  }

  // ----- No paragraph is lost, cut or moved

  function AllParagraphs(sections: seq<string>): seq<string> {
    if sections == [] then [] else SplitParagraphs(sections[0]) + AllParagraphs(sections[1..])
  }

  function AllGroups(layout: seq<seq<seq<string>>>): seq<seq<string>> {
    if layout == [] then [] else layout[0] + AllGroups(layout[1..])
  }

  predicate Occurs(p: string, s: string) {
    exists i :: 0 <= i <= |s| - |p| && s[i..][..|p|] == p
  }

  predicate AllOccur(paras: seq<string>, s: string) {
    forall i :: 0 <= i < |paras| ==> Occurs(paras[i], s)
  }

  // Piece by piece, the paragraphs of the group stand whole in the chunk's text.
  predicate Holds(pieces: seq<string>, groups: seq<seq<string>>) {
    && |pieces| == |groups|
    && forall j :: 0 <= j < |groups| ==> AllOccur(groups[j], Strip(pieces[j]))
  }

  lemma OccursInside(u: string, p: string, v: string)
    ensures Occurs(p, u + p + v)
  {
    assert (u + p + v)[|u|..][..|p|] == p;
  }

  lemma {:induction false} BodySplit(group: seq<string>, i: nat)
    requires i < |group|
    ensures Body(group) == Body(group[..i]) + group[i] + (BLANK_LINE + Body(group[i + 1..]))
    decreases i
  {
    assert Extend("", group[0]) == group[0] + BLANK_LINE;
    if i == 0 {
      assert Body(group[..0]) == "";
    } else {
      assert group[..i][0] == group[0] && group[..i][1..] == group[1..][..i - 1];
      assert group[1..][i..] == group[i + 1..];
      BodySplit(group[1..], i - 1);
    }
  }

  lemma ParagraphOccurs(carry: string, group: seq<string>, i: nat)
    requires i < |group| && Stripped(group[i])
    ensures Occurs(group[i], Strip(carry + Body(group)))
  {
    var before, p, after := Body(group[..i]), group[i], BLANK_LINE + Body(group[i + 1..]);
    BodySplit(group, i);
    Associate(carry, before + p, after);
    Associate(carry, before, p);
    StripAround(carry + before, p, after);
    OccursInside(TrimStart(carry + before), p, TrimEnd(after));
  }

  lemma GroupOccurs(carry: string, group: seq<string>)
    requires AllStripped(group)
    ensures AllOccur(group, Strip(carry + Body(group)))
  {
    forall i | 0 <= i < |group| ensures Occurs(group[i], Strip(carry + Body(group))) {
      ParagraphOccurs(carry, group, i);
    }
  }

  lemma {:induction false} RenderHolds(groups: seq<seq<string>>, carry: string, overlap: int)
    requires AllStripped(Flatten(groups))
    ensures Holds(Render(groups, carry, overlap), groups)
  {
    if groups != [] {
      var all, n := Flatten(groups), |groups[0]|;
      assert groups[0] == all[..n] && Flatten(groups[1..]) == all[n..];
      GroupOccurs(carry, groups[0]);
      RenderHolds(groups[1..], Carry(carry + Body(groups[0]), overlap), overlap);
    }
  }

  lemma {:induction false} FlattenConcat(a: seq<seq<string>>, b: seq<seq<string>>)
    ensures Flatten(a + b) == Flatten(a) + Flatten(b)
  {
    if a == [] {
      assert a + b == b;
    } else {
      assert (a + b)[1..] == a[1..] + b;
      FlattenConcat(a[1..], b);
    }
  }

  lemma {:induction false} LayoutHolds(layout: seq<seq<seq<string>>>, sections: seq<string>, target: int, overlap: int)
    requires LaysOut(layout, sections, target, overlap)
    ensures Holds(RenderAll(layout, overlap), AllGroups(layout))
    ensures Flatten(AllGroups(layout)) == AllParagraphs(sections)
  {
    if layout != [] {
      ParagraphsStripped(SplitAtBlankLines(sections[0]));
      RenderHolds(layout[0], "", overlap);
      LayoutHolds(layout[1..], sections[1..], target, overlap);
      FlattenConcat(layout[0], AllGroups(layout[1..]));
    }
  }

  lemma {:induction false} DocumentGaps(sections: seq<string>) returns (gaps: seq<string>)
    ensures |gaps| == |AllParagraphs(sections)| + 1 && AllGaps(gaps)
    ensures Concat(sections) == Interleave(gaps, AllParagraphs(sections))
  {
    if sections == [] {
      gaps := [""];
    } else {
      var first := ParagraphsOfSection(sections[0], SplitParagraphs(sections[0]));
      var rest := DocumentGaps(sections[1..]);
      gaps := InterleaveConcat(first, SplitParagraphs(sections[0]), rest, AllParagraphs(sections[1..]));
    }
  }

  // The paragraphs of each chunk.
  function ChunkParagraphs(text: string, targetTokens: int, overlapTokens: int): seq<seq<string>> {
    AllGroups(Layout(SplitSections(text), targetTokens * CHARS_PER_TOKEN, overlapTokens * CHARS_PER_TOKEN))
  }

  /** Nothing but space is lost: the document is the paragraphs of the chunks, in the order of the chunks and each once,
      with only space around them; and each stands whole in the text of its own chunk. */
  lemma ParagraphsKept(text: string, targetTokens: int, overlapTokens: int) returns (gaps: seq<string>)
    ensures var paras := Flatten(ChunkParagraphs(text, targetTokens, overlapTokens));
            |gaps| == |paras| + 1 && text == Interleave(gaps, paras) && AllGaps(gaps)
    ensures Holds(Pieces(text, targetTokens, overlapTokens), ChunkParagraphs(text, targetTokens, overlapTokens))
  {
    var sections, target, overlap := SplitSections(text), targetTokens * CHARS_PER_TOKEN, overlapTokens * CHARS_PER_TOKEN;
    SectionsLaidOut(sections, target, overlap);
    LayoutHolds(Layout(sections, target, overlap), sections, target, overlap);
    SectionsPartition(text, sections);
    gaps := DocumentGaps(sections);
  }

  // ----- What a piece is made of

  // How much of a piece the next one repeats: its last `overlap` characters, or all but its first -overlap.
  function Repeated(size: nat, overlap: int): (n: nat)
    ensures n <= size
  {
    if overlap > 0 then (if overlap < size then overlap else size)
    else if overlap < 0 then (if -overlap < size then size + overlap else 0)
    else 0
  }

  lemma CarryIsEnd(piece: string, overlap: int)
    ensures overlap == 0 ==> Carry(piece, overlap) == ""
    ensures overlap != 0 ==> Carry(piece, overlap) == piece[|piece| - Repeated(|piece|, overlap)..] + "\n\n"
  {
  }

  // A group's own text is its paragraphs joined by blank lines, and one more behind the last.
  lemma {:induction false} BodyIsJoin(group: seq<string>)
    requires group != []
    ensures Body(group) == Join(group) + "\n\n"
  {
    if |group| == 1 {
      assert Body(group[1..]) == "";
    } else {
      BodyIsJoin(group[1..]);
      Associate(group[0] + BLANK_LINE, Join(group[1..]), BLANK_LINE);
    }
  }

  lemma {:induction false} RenderLength(groups: seq<seq<string>>, carry: string, overlap: int)
    ensures |Render(groups, carry, overlap)| == |groups|
  {
    if groups != [] {
      RenderLength(groups[1..], Carry(carry + Body(groups[0]), overlap), overlap);
    }
  }

  function Piece(carry: string, group: seq<string>): string {
    carry + Body(group)
  }

  lemma RenderTail(groups: seq<seq<string>>, carry: string, overlap: int)
    requires groups != []
    ensures Render(groups, carry, overlap)
         == [Piece(carry, groups[0])] + Render(groups[1..], Carry(Piece(carry, groups[0]), overlap), overlap)
  {
  }

  lemma {:induction false} RenderedAt(groups: seq<seq<string>>, carry: string, overlap: int, j: nat, pieces: seq<string>)
    requires pieces == Render(groups, carry, overlap) && j < |pieces| == |groups|
    ensures pieces[j] == Piece(if j == 0 then carry else Carry(pieces[j - 1], overlap), groups[j])
    decreases j
  {
    RenderTail(groups, carry, overlap);
    if j > 0 {
      var rest, tail := groups[1..], pieces[1..];
      assert pieces[0] == Piece(carry, groups[0]);
      RenderedAt(rest, Carry(pieces[0], overlap), overlap, j - 1, tail);
      assert tail[j - 1] == pieces[j] && rest[j - 1] == groups[j];
      if j > 1 {
        assert tail[j - 2] == pieces[j - 1];
      }
    }
  }

  /** The text of a section's pieces: the first is its paragraphs joined by blank lines; each later one starts with the
      end of the piece before it, as much as the overlap says, and a blank line, unless there is no overlap. */
  lemma PieceText(groups: seq<seq<string>>, overlap: int, j: nat, pieces: seq<string>)
    requires j < |groups| && groups[j] != [] && pieces == Render(groups, "", overlap)
    ensures |pieces| == |groups|
    ensures j == 0 || overlap == 0 ==> pieces[j] == Join(groups[j]) + "\n\n"
    ensures j > 0 && overlap != 0 ==>
      var before := pieces[j - 1];
      pieces[j] == before[|before| - Repeated(|before|, overlap)..] + "\n\n" + (Join(groups[j]) + "\n\n")
  {
    RenderLength(groups, "", overlap);
    RenderedAt(groups, "", overlap, j, pieces);
    BodyIsJoin(groups[j]);
    if j > 0 {
      CarryIsEnd(pieces[j - 1], overlap);
    }
    assert "" + Body(groups[j]) == Body(groups[j]);
  }

  // ----- How long a piece gets

  predicate AllWithin(parts: seq<string>, n: int) {
    forall i :: 0 <= i < |parts| ==> |parts[i]| <= n
  }

  function Max(a: int, b: int): int {
    if a < b then b else a
  }

  lemma {:induction false} PackWithin(paras: seq<string>, current: string, target: int, overlap: int, longest: int, limit: int)
    requires AllWithin(paras, longest) && 0 <= overlap && |current| <= limit
    requires limit == Max(target + 2, overlap + longest + 4)
    ensures AllWithin(Pack(paras, current, target, overlap), limit)
    decreases |paras|
  {
    if paras != [] {
      if current != "" && |current| + |paras[0]| > target {
        PackWithin(paras[1..], Extend(Carry(current, overlap), paras[0]), target, overlap, longest, limit);
      } else {
        PackWithin(paras[1..], Extend(current, paras[0]), target, overlap, longest, limit);
      }
    }
  }

  lemma {:induction false} AllWithinLimit(sections: seq<string>, target: int, overlap: int, longest: int)
    requires AllWithin(AllParagraphs(sections), longest) && 0 <= overlap && 0 <= longest
    ensures AllWithin(PackAll(sections, target, overlap), Max(target + 2, overlap + longest + 4))
  {
    if sections != [] {
      var all, paras := AllParagraphs(sections), SplitParagraphs(sections[0]);
      assert paras == all[..|paras|] && AllParagraphs(sections[1..]) == all[|paras|..];
      PackWithin(paras, "", target, overlap, longest, Max(target + 2, overlap + longest + 4));
      AllWithinLimit(sections[1..], target, overlap, longest);
    }
  }

  // The limit for a document whose longest paragraph is given.
  function Limit(targetTokens: int, overlapTokens: int, longest: int): int {
    Max(4 * targetTokens + 2, 4 * Max(overlapTokens, 0) + longest + 4)
  }

  // Every piece of every document keeps the limit.
  ghost predicate LimitHolds(targetTokens: int, overlapTokens: int) {
    forall text: string, longest: nat :: AllWithin(AllParagraphs(SplitSections(text)), longest) ==>
      AllWithin(Pieces(text, targetTokens, overlapTokens), Limit(targetTokens, overlapTokens, longest))
  }

  // ----- The document that breaks the limit under a negative overlap: two long paragraphs

  function Letters(n: nat): (s: string)
    ensures |s| == n && forall i :: 0 <= i < n ==> s[i] == 'a'
  {
    seq(n, _ => 'a')
  }

  function TwoParagraphs(n: nat): string {
    Letters(n) + BLANK_LINE + Letters(n)
  }

  lemma {:induction false} OnePart(s: string)
    requires '\n' !in s
    ensures SplitAtBlankLines(s) == [s]
  {
    if |s| >= 2 {
      assert s[0] in s && s == [s[0]] + s[1..];
      OnePart(s[1..]);
    }
  }

  lemma {:induction false} TwoParts(s: string, rest: string)
    requires '\n' !in s && '\n' !in rest
    ensures SplitAtBlankLines(s + BLANK_LINE + rest) == [s, rest]
  {
    var text := s + BLANK_LINE + rest;
    if s == "" {
      assert text[0] == text[1] == '\n' && text[2..] == rest;
      OnePart(rest);
    } else {
      assert text[0] == s[0] && s[0] in s && text[1..] == s[1..] + BLANK_LINE + rest;
      TwoParts(s[1..], rest);
      assert [s[0]] + s[1..] == s;
    }
  }

  lemma StrippedIsKept(p: string)
    requires Stripped(p)
    ensures Strip(p) == p
  {
    StripAround("", p, "");
    assert "" + p + "" == p;
  }

  lemma HeadingHasMark(text: string, i: nat)
    requires HeadingAt(text, i)
    ensures '#' in text
  {
    var k :| 1 <= k <= 6 && Hashes(text, i, k);
    assert text[i] == '#';
  }

  lemma StartsHaveMarks(text: string)
    ensures HeadingStarts(text, 0) != [] ==> '#' in text
  {
    var starts := HeadingStarts(text, 0);
    if starts != [] {
      HeadingHasMark(text, starts[0]);
    }
  }

  lemma OneSection(n: nat)
    ensures SplitSections(TwoParagraphs(n)) == [TwoParagraphs(n)]
  {
    StartsHaveMarks(TwoParagraphs(n));
  }

  lemma BothParagraphs(n: nat)
    requires n > 0
    ensures SplitParagraphs(TwoParagraphs(n)) == [Letters(n), Letters(n)]
  {
    TwoParts(Letters(n), Letters(n));
    StrippedIsKept(Letters(n));
    var parts := [Letters(n), Letters(n)];
    assert StripAll(parts[1..][1..]) == [] && StripAll(parts[1..]) == [Letters(n)];
  }

  lemma OnlySection(section: string, target: int, overlap: int)
    ensures PackAll([section], target, overlap) == Pack(SplitParagraphs(section), "", target, overlap)
    ensures AllParagraphs([section]) == SplitParagraphs(section)
  {
    assert [section][1..] == [];
    assert AllParagraphs([section][1..]) == [];
    assert PackAll([section][1..], target, overlap) == [];
  }

  // The second piece is nearly the whole first one and a paragraph.
  lemma TwoPieces(n: nat, target: int, overlap: int)
    requires n > 0 && overlap < 0 && -overlap <= n && target < 2 * n
    ensures var pieces := Pack([Letters(n), Letters(n)], "", target, overlap);
            |pieces| == 2 && |pieces[1]| == 2 * n + overlap + 6
  {
    var p, paras := Letters(n), [Letters(n), Letters(n)];
    var first := Extend("", p);
    var second := Extend(Carry(first, overlap), p);
    assert paras[1..][1..] == [];
    OpenPieceCounts(Carry(first, overlap), [p]);
    NewGroup(Carry(first, overlap), p);
    assert Pack([], second, target, overlap) == [second];
  }

  lemma LimitKept(text: string, targetTokens: int, overlapTokens: nat, longest: nat)
    requires AllWithin(AllParagraphs(SplitSections(text)), longest)
    ensures AllWithin(Pieces(text, targetTokens, overlapTokens), Limit(targetTokens, overlapTokens, longest))
  {
    var target, overlap := targetTokens * CHARS_PER_TOKEN, overlapTokens * CHARS_PER_TOKEN;
    AllWithinLimit(SplitSections(text), target, overlap, longest);
    assert Limit(targetTokens, overlapTokens, longest) == Max(target + 2, overlap + longest + 4);
  }

  lemma PiecesOfTwo(n: nat, targetTokens: int, overlapTokens: int)
    requires n > 0
    ensures Pieces(TwoParagraphs(n), targetTokens, overlapTokens)
         == Pack([Letters(n), Letters(n)], "", targetTokens * CHARS_PER_TOKEN, overlapTokens * CHARS_PER_TOKEN)
    ensures AllParagraphs(SplitSections(TwoParagraphs(n))) == [Letters(n), Letters(n)]
  {
    OneSection(n);
    BothParagraphs(n);
    OnlySection(TwoParagraphs(n), targetTokens * CHARS_PER_TOKEN, overlapTokens * CHARS_PER_TOKEN);
  }

  lemma Outgrows(targetTokens: int, overlapTokens: int, n: int)
    requires overlapTokens < 0 && n == Max(4 * targetTokens, 0) - 4 * overlapTokens
    ensures 2 * n + 4 * overlapTokens + 6 > Limit(targetTokens, overlapTokens, n)
    ensures n > 0 && -(4 * overlapTokens) <= n && 4 * targetTokens < 2 * n
  {
  }

  // With a negative overlap, two paragraphs of this length break the limit.
  lemma NegativeOverlapOutgrows(pieces: seq<string>, targetTokens: int, overlapTokens: int, n: nat)
    requires overlapTokens < 0 && n == Max(4 * targetTokens, 0) - 4 * overlapTokens
    requires pieces == Pieces(TwoParagraphs(n), targetTokens, overlapTokens)
    ensures !AllWithin(pieces, Limit(targetTokens, overlapTokens, n))
  {
    Outgrows(targetTokens, overlapTokens, n);
    PiecesOfTwo(n, targetTokens, overlapTokens);
    TwoPieces(n, targetTokens * CHARS_PER_TOKEN, overlapTokens * CHARS_PER_TOKEN);
    assert |pieces[1]| > Limit(targetTokens, overlapTokens, n);
  }

  /** A piece outgrows the target by its final blank line at most, unless it is the overlap and one long paragraph. This
      holds for every document exactly when the overlap is not negative. */
  lemma PiecesWithinLimitIff(targetTokens: int, overlapTokens: int)
    ensures LimitHolds(targetTokens, overlapTokens) <==> overlapTokens >= 0
  {
    if overlapTokens >= 0 {
      forall text: string, longest: nat | AllWithin(AllParagraphs(SplitSections(text)), longest)
        ensures AllWithin(Pieces(text, targetTokens, overlapTokens), Limit(targetTokens, overlapTokens, longest))
      {
        LimitKept(text, targetTokens, overlapTokens, longest);
      }
    } else {
      var n := Max(4 * targetTokens, 0) - 4 * overlapTokens;
      var text := TwoParagraphs(n);
      NegativeOverlapOutgrows(Pieces(text, targetTokens, overlapTokens), targetTokens, overlapTokens, n);
      PiecesOfTwo(n, targetTokens, overlapTokens);
      assert AllWithin(AllParagraphs(SplitSections(text)), n);
    }
  }
}
