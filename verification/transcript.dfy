/** The provider-agnostic transcript, and its compaction when it outgrows the context budget. */
module Transcripts {
  import opened Wrappers

  // `arguments` is the JSON text of the argument dict.
  datatype ToolCall = ToolCall(id: string, name: string, arguments: string)

  datatype Item =
    | User(content: string)
    | Assistant(content: string, calls: seq<ToolCall>)
    | ToolResult(callId: string, name: string, content: string, isError: bool)

  type Transcript = seq<Item>

  datatype Usage = Usage(input: int, output: int)

  function Plus(a: Usage, b: Usage): Usage {
    Usage(a.input + b.input, a.output + b.output)
  }

  // ----- What a loop transcript looks like -----

  // The items are exactly the results of the calls, in order.
  predicate Answers(calls: seq<ToolCall>, items: seq<Item>) {
    && |items| == |calls|
    && forall i :: 0 <= i < |calls| ==> items[i].ToolResult? && items[i].callId == calls[i].id && items[i].name == calls[i].name
  }

  // A sequence of rounds: an assistant item with calls, followed at once by their results.
  predicate Rounds(t: seq<Item>) {
    t == [] ||
    (t[0].Assistant? && t[0].calls != [] && |t| > |t[0].calls|
     && Answers(t[0].calls, t[1..|t[0].calls| + 1]) && Rounds(t[|t[0].calls| + 1..]))
  }

  predicate WellFormed(t: Transcript) {
    t != [] && t[0].User? && Rounds(t[1..])
  }

  // ----- Token estimate -----

  const CHARS_PER_TOKEN := 4
  const PER_ITEM_OVERHEAD := 4

  function CallTokens(calls: seq<ToolCall>): nat {
    if calls == [] then 0
    else CallTokens(calls[..|calls| - 1]) + |calls[|calls| - 1].name + calls[|calls| - 1].arguments| / CHARS_PER_TOKEN
  }

  function ItemTokens(item: Item): nat {
    PER_ITEM_OVERHEAD + |item.content| / CHARS_PER_TOKEN + if item.Assistant? then CallTokens(item.calls) else 0
  }

  function Tokens(t: Transcript): nat {
    if t == [] then 0 else Tokens(t[..|t| - 1]) + ItemTokens(t[|t| - 1])
  }

  method EstimateTokens(t: Transcript) returns (total: nat)
    ensures total == Tokens(t)
  {
    total := 0;
    for i := 0 to |t|
      invariant total == Tokens(t[..i])
    {
      assert t[..i + 1][..i] == t[..i];
      var before := total;
      total := total + PER_ITEM_OVERHEAD + |t[i].content| / CHARS_PER_TOKEN;
      if t[i].Assistant? {
        var calls := t[i].calls;
        for j := 0 to |calls|
          invariant total == before + PER_ITEM_OVERHEAD + |t[i].content| / CHARS_PER_TOKEN + CallTokens(calls[..j])
        {
          assert calls[..j + 1][..j] == calls[..j];
          total := total + |calls[j].name + calls[j].arguments| / CHARS_PER_TOKEN;
        }
        assert calls[..|calls|] == calls;
      }
    }
    assert t[..|t|] == t;
  }

  // The estimate counts every item by itself, and these are its values: with TokensConcat they determine it.

  lemma {:induction false} TokensConcat(a: Transcript, b: Transcript)
    ensures Tokens(a + b) == Tokens(a) + Tokens(b)
  {
    if b == [] {
      assert a + b == a;
    } else {
      TokensConcat(a, b[..|b| - 1]);
      assert (a + b)[..|a + b| - 1] == a + b[..|b| - 1];
    }
  }

  lemma {:induction false} CallTokensConcat(a: seq<ToolCall>, b: seq<ToolCall>)
    ensures CallTokens(a + b) == CallTokens(a) + CallTokens(b)
  {
    if b == [] {
      assert a + b == a;
    } else {
      CallTokensConcat(a, b[..|b| - 1]);
      assert (a + b)[..|a + b| - 1] == a + b[..|b| - 1];
    }
  }

  /** Four tokens an item, and one for every four characters of its content and, call by call, of each call's name and
      arguments. */
  lemma TokensOfOne(content: string, calls: seq<ToolCall>, call: ToolCall, id: string, name: string, isError: bool)
    ensures Tokens([User(content)]) == 4 + |content| / 4
    ensures Tokens([ToolResult(id, name, content, isError)]) == 4 + |content| / 4
    ensures Tokens([Assistant(content, [])]) == 4 + |content| / 4
    ensures Tokens([Assistant(content, calls + [call])])
      == Tokens([Assistant(content, calls)]) + (|call.name| + |call.arguments|) / 4
  {
    forall item: Item ensures Tokens([item]) == ItemTokens(item) {
      assert [item][..0] == [];
    }
    CallTokensConcat(calls, [call]);
    assert [call][..0] == [];
  }

  // ----- The cut -----

  // Where the kept items may start: at the end, or at anything but a tool result.
  predicate Boundary(t: Transcript, cut: int) {
    cut >= |t| || (0 <= cut && !t[cut].ToolResult?)
  }

  // The first index that keeps at most `keep` items (any number of items when `keep` is negative).
  function Earliest(t: Transcript, keep: int): nat {
    if |t| - keep > 0 then |t| - keep else 0
  }

  /** choose_cut returns the first boundary that keeps at most `keep` items. */
  method ChooseCut(t: Transcript, keep: int) returns (cut: nat)
    ensures Earliest(t, keep) <= cut && Boundary(t, cut)
    ensures forall i :: Earliest(t, keep) <= i < cut ==> !Boundary(t, i)
    ensures cut == Cut(t, Earliest(t, keep))
  {
    cut := if |t| - keep > 0 then |t| - keep else 0;
    while cut < |t| && t[cut].ToolResult?
      invariant Earliest(t, keep) <= cut && (cut <= |t| || cut == Earliest(t, keep))
      invariant forall i :: Earliest(t, keep) <= i < cut ==> !Boundary(t, i)
      invariant Cut(t, cut) == Cut(t, Earliest(t, keep))
      decreases |t| - cut
    {
      cut := cut + 1;
    }
  }

  function Cut(t: Transcript, from: nat): (cut: nat)
    ensures from <= cut && Boundary(t, cut) && (cut <= |t| || cut == from)
    decreases |t| - from
  {
    if from < |t| && t[from].ToolResult? then Cut(t, from + 1) else from
  }

  // A boundary inside a sequence of rounds falls between two rounds.
  lemma {:induction false} RoundsFromBoundary(t: seq<Item>, cut: nat)
    requires Rounds(t) && cut <= |t| && (cut < |t| ==> !t[cut].ToolResult?)
    ensures Rounds(t[cut..])
  {
    if 0 < cut < |t| {
      var n := |t[0].calls| + 1;
      forall i | 1 <= i < n ensures t[i].ToolResult? {
        assert t[1..n][i - 1] == t[i];
      }
      if n <= cut {
        RoundsFromBoundary(t[n..], cut - n);
        assert t[n..][cut - n..] == t[cut..];
      }
    }
  }

  // ----- Compaction -----

  // `trigger` is the least integer not below max_context_tokens * compact_trigger_ratio; an estimate, being an
  // integer, reaches the product exactly when it reaches `trigger`.
  datatype Policy = Policy(trigger: int, keepRecentItems: int)

  datatype Compaction = Compaction(step: int, before: nat, after: nat, summarized: nat, usage: Usage)

  // The summarising model, as an oracle over the items to fold and the step; its text includes the fixed marker line.
  type Summarizer = (Transcript, int) -> (string, Usage)

  predicate ShouldCompact(t: Transcript, p: Policy) {
    Tokens(t) >= p.trigger
  }

  // Python slices stop at the end of the list.
  function Clamp(t: Transcript, cut: nat): nat {
    if cut < |t| then cut else |t|
  }

  function MaybeCompact(t: Transcript, p: Policy, summarize: Summarizer, step: int): (Transcript, Option<Compaction>) {
    var cut := Cut(t, Earliest(t, p.keepRecentItems));
    if !ShouldCompact(t, p) || cut < 2 then (t, None)
    else
      var folded, recent := t[..Clamp(t, cut)], t[Clamp(t, cut)..];
      var (text, usage) := summarize(folded, step);
      var compacted := [User(text)] + recent;
      (compacted, Some(Compaction(step, Tokens(t), Tokens(compacted), |folded|, usage)))
  }

  method Compact(t: Transcript, p: Policy, summarize: Summarizer, step: int) returns (t': Transcript, event: Option<Compaction>)
    ensures (t', event) == MaybeCompact(t, p, summarize, step)
  {
    var before := EstimateTokens(t);
    if before < p.trigger {
      return t, None;
    }
    var cut := ChooseCut(t, p.keepRecentItems);
    if cut < 2 {
      return t, None;
    }
    var folded, recent := t[..Clamp(t, cut)], t[Clamp(t, cut)..];
    var (text, usage) := summarize(folded, step);
    t' := [User(text)] + recent;
    var after := EstimateTokens(t');
    event := Some(Compaction(step, before, after, |folded|, usage));
  }

  lemma SuffixKeepsRounds(t: Transcript, cut: nat, summary: string)
    requires WellFormed(t) && 1 <= cut <= |t| && Boundary(t, cut)
    ensures Rounds(t[cut..]) && WellFormed([User(summary)] + t[cut..])
  {
    RoundsFromBoundary(t[1..], cut - 1);
    assert t[1..][cut - 1..] == t[cut..];
    assert ([User(summary)] + t[cut..])[1..] == t[cut..];
  }

  // The event describes the compaction of t to t'.
  ghost predicate Describes(event: Compaction, t: Transcript, t': Transcript, p: Policy) {
    && 1 <= event.summarized <= |t|
    && t' != [] && t'[1..] == t[event.summarized..] && Rounds(t[event.summarized..])
    // shorter, unless the policy keeps a negative number of items and there was only one
    && (|t'| < |t| <==> |t| >= 2)
    && (p.keepRecentItems >= 0 ==> |t| >= 2)
    && |t'| - 1 <= (if p.keepRecentItems > 0 then p.keepRecentItems else 0)
    && event.before == Tokens(t) && event.after == Tokens(t')
  }

  /** A compaction of a well-formed transcript cuts between rounds, so no call is parted from its results; it keeps a
      suffix of at most `keep` items word for word; and it makes the transcript shorter whenever `keep` is not negative. */
  lemma CompactionKeepsRounds(t: Transcript, p: Policy, summarize: Summarizer, step: int)
    requires WellFormed(t)
    ensures var (t', event) := MaybeCompact(t, p, summarize, step);
      && WellFormed(t')
      && (event.None? ==> t' == t)
      && (event.Some? ==> Describes(event.value, t, t', p))
  {
    var cut := Cut(t, Earliest(t, p.keepRecentItems));
    if ShouldCompact(t, p) && cut >= 2 {
      var at := Clamp(t, cut);
      var text := summarize(t[..at], step).0;
      var t' := [User(text)] + t[at..];
      assert MaybeCompact(t, p, summarize, step).0 == t';
      SuffixKeepsRounds(t, at, text);
      assert t'[1..] == t[at..];
    }
  }

  predicate IsResult(t: Transcript, i: nat) {
    i < |t| && t[i].ToolResult?
  }

  // The least index not before `from` at which the kept items may start.
  ghost predicate FirstBoundary(t: Transcript, from: int, cut: nat) {
    from <= cut && !IsResult(t, cut) && forall i: nat :: from <= i < cut ==> IsResult(t, i)
  }

  lemma {:induction false} CutReaches(t: Transcript, from: nat, cut: nat)
    requires FirstBoundary(t, from, cut)
    ensures Cut(t, from) == cut
    decreases cut - from
  {
    if from < cut {
      assert IsResult(t, from);
      CutReaches(t, from + 1, cut);
    }
  }

  lemma {:induction false} CompactsAt(t: Transcript, p: Policy, summarize: Summarizer, step: int, cut: nat, n: nat)
    requires cut == Cut(t, Earliest(t, p.keepRecentItems)) && n == if cut < |t| then cut else |t|
    ensures var (t', event) := MaybeCompact(t, p, summarize, step);
      && (event.Some? <==> Tokens(t) >= p.trigger && cut >= 2)
      && (event.None? ==> t' == t)
      && (event.Some? ==>
           && t' == [User(summarize(t[..n], step).0)] + t[n..]
           && event.value == Compaction(step, Tokens(t), Tokens(t'), n, summarize(t[..n], step).1))
  {
  }

  /** Exactly what a compaction does, for every transcript: there is one iff the estimate reaches the trigger and the
      first boundary that keeps at most `keep` items is 2 or more; it puts the summary of the items before that boundary
      in their place; and its event tells the step, the estimates, the number of items and the summariser's usage. */
  lemma CompactionExactly(t: Transcript, p: Policy, summarize: Summarizer, step: int, cut: nat)
    requires FirstBoundary(t, |t| - p.keepRecentItems, cut)
    ensures var (t', event) := MaybeCompact(t, p, summarize, step);
      var n := if cut < |t| then cut else |t|;
      && (event.Some? <==> Tokens(t) >= p.trigger && cut >= 2)
      && (event.None? ==> t' == t)
      && (event.Some? ==>
           && t' == [User(summarize(t[..n], step).0)] + t[n..]
           && event.value == Compaction(step, Tokens(t), Tokens(t'), n, summarize(t[..n], step).1))
  {
    assert FirstBoundary(t, Earliest(t, p.keepRecentItems), cut);
    CutReaches(t, Earliest(t, p.keepRecentItems), cut);
    CompactsAt(t, p, summarize, step, cut, if cut < |t| then cut else |t|);
  }

  /** A compaction fails to shorten its transcript exactly when there was at most one item and the policy keeps so few,
      a negative number, that the cut lies two or more items in. */
  lemma CompactionShortensIff(t: Transcript, p: Policy, summarize: Summarizer, step: int)
    ensures var (t', event) := MaybeCompact(t, p, summarize, step);
      event.Some? && |t'| >= |t| <==> |t| <= 1 && |t| - p.keepRecentItems >= 2 && ShouldCompact(t, p)
  {
  }

  /** The smallest case: one empty message, keeping -1 items. */
  lemma CompactedToOneItem(summarize: Summarizer)
    ensures var t := [User("")];
      var (t', event) := MaybeCompact(t, Policy(0, -1), summarize, 0);
      WellFormed(t) && event.Some? && |t'| == |t| == 1
  {
    CompactionShortensIff([User("")], Policy(0, -1), summarize, 0);
  }
}
