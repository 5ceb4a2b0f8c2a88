/** The agent loop: model turn, tool calls, results fed back, until an answer without calls. */
module AgentLoop {
  import opened Wrappers
  import opened Transcripts
  import opened Sums

  datatype Output = Output(text: string, calls: seq<ToolCall>, usage: Usage)

  datatype Execution = Execution(callId: string, name: string, arguments: string, result: string, isError: bool)

  datatype AgentStep = AgentStep(output: Output, executions: seq<Execution>)

  // The agent and its surroundings: the model over the transcript and the step, its tools, the summariser. A tool's
  // answer depends on the call and on which execution it is: the step and the place among the step's calls.
  datatype Agent = Agent(maxSteps: nat, policy: Policy, model: (Transcript, nat) -> Output,
                         tools: set<string>, runTool: (ToolCall, nat, nat) -> (string, bool), summarize: Summarizer)

  datatype Outcome = Outcome(completed: bool, finalText: string, steps: seq<AgentStep>, usage: Usage, compactions: seq<Compaction>)

  // The loop's variables at the head of an iteration.
  datatype Loop = Loop(transcript: Transcript, steps: seq<AgentStep>, usage: Usage, compactions: seq<Compaction>)

  function Execute(agent: Agent, call: ToolCall, k: nat, i: nat): Execution {
    if call.name in agent.tools then
      var (result, isError) := agent.runTool(call, k, i);
      Execution(call.id, call.name, call.arguments, result, isError)
    else
      Execution(call.id, call.name, call.arguments, "Unknown tool: " + call.name, true)
  }

  function ExecuteAll(agent: Agent, calls: seq<ToolCall>, k: nat): (r: seq<Execution>)
    ensures |r| == |calls|
  {
    seq(|calls|, i requires 0 <= i < |calls| => Execute(agent, calls[i], k, i))
  }

  function ResultItem(e: Execution): Item {
    ToolResult(e.callId, e.name, e.result, e.isError)
  }

  function ResultItems(es: seq<Execution>): (r: seq<Item>)
    ensures |r| == |es|
  {
    seq(|es|, i requires 0 <= i < |es| => ResultItem(es[i]))
  }

  // The head with the compaction applied: what the model is sent.
  function Sent(agent: Agent, l: Loop, k: nat): Loop {
    var (t, event) := MaybeCompact(l.transcript, agent.policy, agent.summarize, k);
    Charged(l, t, event)
  }

  function Charged(l: Loop, t: Transcript, event: Option<Compaction>): Loop {
    if event.None? then l.(transcript := t)
    else l.(transcript := t, usage := Plus(l.usage, event.value.usage), compactions := l.compactions + [event.value])
  }

  // The next head, after a model turn with calls.
  function After(agent: Agent, s: Loop, out: Output, k: nat): Loop {
    var es := ExecuteAll(agent, out.calls, k);
    Loop(s.transcript + [Assistant(out.text, out.calls)] + ResultItems(es), s.steps + [AgentStep(out, es)],
         Plus(s.usage, out.usage), s.compactions)
  }

  function Begin(input: string): Loop {
    Loop([User(input)], [], Usage(0, 0), [])
  }

  // The head of the next iteration, if this one does not end the run.
  function NextHead(agent: Agent, l: Loop, k: nat): Option<Loop> {
    var s := Sent(agent, l, k);
    var out := agent.model(s.transcript, k);
    if k >= agent.maxSteps || out.calls == [] then None else Some(After(agent, s, out, k))
  }

  // How the iteration at head l ends the run: out of steps, or with an answer without calls.
  function End(agent: Agent, l: Loop, k: nat): Outcome {
    if k >= agent.maxSteps then Outcome(false, "", l.steps, l.usage, l.compactions)
    else
      var s := Sent(agent, l, k);
      var out := agent.model(s.transcript, k);
      Outcome(true, out.text, s.steps + [AgentStep(out, [])], Plus(s.usage, out.usage), s.compactions)
  }

  function Continue(agent: Agent, l: Loop, k: nat): Outcome
    decreases agent.maxSteps - k
  {
    var next := NextHead(agent, l, k);
    if next.None? then End(agent, l, k) else Continue(agent, next.value, k + 1)
  }

  // The heads of the iterations from k on, in order.
  function Heads(agent: Agent, l: Loop, k: nat): seq<Loop>
    decreases agent.maxSteps - k
  {
    var next := NextHead(agent, l, k);
    [l] + if next.None? then [] else Heads(agent, next.value, k + 1)
  }

  lemma TraceHead(agent: Agent, l: Loop, k: nat, trace: seq<Loop>)
    ensures var next := NextHead(agent, l, k);
            trace + Heads(agent, l, k) ==
            if next.None? then trace + [l] else trace + [l] + Heads(agent, next.value, k + 1)
  {
  }

  // The tool calls of one turn, each result appended to the transcript as it comes.
  method RunTools(agent: Agent, before: Transcript, calls: seq<ToolCall>, k: nat) returns (executions: seq<Execution>, after: Transcript)
    ensures executions == ExecuteAll(agent, calls, k)
    ensures after == before + ResultItems(ExecuteAll(agent, calls, k))
  {
    executions, after := [], before;
    for i := 0 to |calls|
      invariant executions == ExecuteAll(agent, calls, k)[..i]
      invariant after == before + ResultItems(ExecuteAll(agent, calls, k))[..i]
    {
      var e := Execute(agent, calls[i], k, i);
      executions := executions + [e];
      after := after + [ResultItem(e)];
    }
  }

  // `trace` collects the loop's variables at every head.
  method RunAgent(agent: Agent, input: string) returns (r: Outcome, ghost trace: seq<Loop>)
    ensures r == Continue(agent, Begin(input), 0)
    ensures trace == Heads(agent, Begin(input), 0)
  {
    var transcript: Transcript := [User(input)];
    var steps: seq<AgentStep> := [];
    var usage := Usage(0, 0);
    var compactions: seq<Compaction> := [];
    trace := [];
    for k := 0 to agent.maxSteps
      invariant WellFormed(transcript)
      invariant trace + Heads(agent, Loop(transcript, steps, usage, compactions), k) == Heads(agent, Begin(input), 0)
      invariant Continue(agent, Loop(transcript, steps, usage, compactions), k) == Continue(agent, Begin(input), 0)
    {
      ghost var head := Loop(transcript, steps, usage, compactions);
      TraceHead(agent, head, k, trace);
      trace := trace + [head];
      CompactionKeepsRounds(transcript, agent.policy, agent.summarize, k);
      var compacted, event := Compact(transcript, agent.policy, agent.summarize, k);
      transcript := compacted;
      if event.Some? {
        compactions, usage := compactions + [event.value], Plus(usage, event.value.usage);
      }
      ghost var sent := Loop(transcript, steps, usage, compactions);
      assert sent == Sent(agent, head, k);
      var out := agent.model(transcript, k);
      assert NextHead(agent, head, k) == if out.calls == [] then None else Some(After(agent, sent, out, k));
      usage := Plus(usage, out.usage);
      if out.calls == [] {
        return Outcome(true, out.text, steps + [AgentStep(out, [])], usage, compactions), trace;
      }
      AfterKeepsRounds(agent, sent, out, k);
      var executions: seq<Execution>;
      executions, transcript := RunTools(agent, transcript + [Assistant(out.text, out.calls)], out.calls, k);
      steps := steps + [AgentStep(out, executions)];
      assert Loop(transcript, steps, usage, compactions) == After(agent, sent, out, k);
    }
    trace := trace + [Loop(transcript, steps, usage, compactions)];
    return Outcome(false, "", steps, usage, compactions), trace;
  }

  lemma {:induction false} RoundsAppend(t: seq<Item>, u: seq<Item>)
    requires Rounds(t) && Rounds(u)
    ensures Rounds(t + u)
  {
    if t == [] {
      assert t + u == u;
    } else {
      var n := |t[0].calls| + 1;
      RoundsAppend(t[n..], u);
      assert (t + u)[n..] == t[n..] + u;
      assert (t + u)[1..n] == t[1..n];
    }
  }

  lemma OneRound(call: Item, results: seq<Item>)
    requires call.Assistant? && call.calls != [] && Answers(call.calls, results)
    ensures Rounds([call] + results)
  {
    var round := [call] + results;
    assert round[1..|call.calls| + 1] == results;
    assert round[|call.calls| + 1..] == [];
  }

  lemma RoundAppended(t: Transcript, text: string, calls: seq<ToolCall>, results: seq<Item>)
    requires WellFormed(t) && calls != [] && Answers(calls, results)
    ensures WellFormed(t + [Assistant(text, calls)] + results)
  {
    var call := Assistant(text, calls);
    OneRound(call, results);
    RoundsAppend(t[1..], [call] + results);
    assert (t + [call] + results)[1..] == t[1..] + ([call] + results);
  }

  lemma AfterKeepsRounds(agent: Agent, s: Loop, out: Output, k: nat)
    requires WellFormed(s.transcript) && out.calls != []
    ensures WellFormed(After(agent, s, out, k).transcript)
  {
    RoundAppended(s.transcript, out.text, out.calls, ResultItems(ExecuteAll(agent, out.calls, k)));
  }

  lemma SentKeepsRounds(agent: Agent, l: Loop, k: nat)
    requires WellFormed(l.transcript)
    ensures WellFormed(Sent(agent, l, k).transcript)
  {
    CompactionKeepsRounds(l.transcript, agent.policy, agent.summarize, k);
  }

  lemma {:induction false} NextKeepsRounds(agent: Agent, l: Loop, k: nat)
    requires WellFormed(l.transcript)
    ensures NextHead(agent, l, k).Some? ==> WellFormed(NextHead(agent, l, k).value.transcript)
  {
    var s := Sent(agent, l, k);
    var out := agent.model(s.transcript, k);
    SentKeepsRounds(agent, l, k);
    if out.calls != [] {
      AfterKeepsRounds(agent, s, out, k);
    }
  }

  lemma {:induction false} HeadsKeepRounds(agent: Agent, l: Loop, k: nat, i: nat)
    requires WellFormed(l.transcript) && i < |Heads(agent, l, k)|
    ensures WellFormed(Heads(agent, l, k)[i].transcript)
    decreases agent.maxSteps - k
  {
    if i > 0 {
      NextKeepsRounds(agent, l, k);
      HeadsKeepRounds(agent, NextHead(agent, l, k).value, k + 1, i - 1);
    }
  }

  /** At every loop head, and in everything the model is sent, through any number of compactions: the transcript starts
      with a user item, and each assistant item is followed at once by exactly its results in order. */
  lemma HeadsWellFormed(agent: Agent, input: string, i: nat)
    requires i < |Heads(agent, Begin(input), 0)|
    ensures WellFormed(Heads(agent, Begin(input), 0)[i].transcript)
    ensures WellFormed(Sent(agent, Heads(agent, Begin(input), 0)[i], i).transcript)
  {
    HeadsKeepRounds(agent, Begin(input), 0, i);
    SentKeepsRounds(agent, Heads(agent, Begin(input), 0)[i], i);
  }

  // Each head is followed by its next one, and the last by none.
  lemma {:induction false} HeadStep(agent: Agent, l: Loop, k: nat, heads: seq<Loop>, i: nat, n: nat)
    requires heads == Heads(agent, l, k) && i < |heads| && n == k + i
    ensures NextHead(agent, heads[i], n) == if i + 1 < |heads| then Some(heads[i + 1]) else None
    decreases i
  {
    var next := NextHead(agent, l, k);
    if i > 0 {
      var rest := heads[1..];
      assert next.Some? && rest == Heads(agent, next.value, k + 1);
      HeadStep(agent, next.value, k + 1, rest, i - 1, n);
    } else if next.Some? {
      assert heads == [l] + Heads(agent, next.value, k + 1);
      assert Heads(agent, next.value, k + 1)[0] == next.value;
    }
  }

  // The heads of a run, one after the other.
  predicate Goes(agent: Agent, heads: seq<Loop>, n: int)
    requires 0 <= n < |heads|
  {
    NextHead(agent, heads[n], n) == if n + 1 < |heads| then Some(heads[n + 1]) else None
  }

  predicate IsTrace(agent: Agent, heads: seq<Loop>) {
    heads != [] && forall n :: 0 <= n < |heads| ==> Goes(agent, heads, n)
  }

  lemma {:induction false} HeadsAreTrace(agent: Agent, l: Loop, heads: seq<Loop>)
    requires heads == Heads(agent, l, 0)
    ensures IsTrace(agent, heads) && heads[0] == l
  {
    forall n | 0 <= n < |heads| ensures Goes(agent, heads, n) {
      HeadStep(agent, l, 0, heads, n, n);
    }
  }

  // ----- The record of the run -----

  function StepTokens(u: Usage -> int): AgentStep -> int {
    (step: AgentStep) => u(step.output.usage)
  }

  function EventTokens(u: Usage -> int): Compaction -> int {
    (event: Compaction) => u(event.usage)
  }

  function Consumed(): Usage -> int {
    (u: Usage) => u.input
  }

  function Produced(): Usage -> int {
    (u: Usage) => u.output
  }

  // The usage reported so far is what the recorded turns and compactions consumed.
  predicate Accounted(steps: seq<AgentStep>, events: seq<Compaction>, usage: Usage) {
    && usage.input == Sum(StepTokens(Consumed()), steps) + Sum(EventTokens(Consumed()), events)
    && usage.output == Sum(StepTokens(Produced()), steps) + Sum(EventTokens(Produced()), events)
  }

  lemma SumSnoc<T>(f: T -> int, xs: seq<T>, x: T)
    ensures Sum(f, xs + [x]) == Sum(f, xs) + f(x)
  {
    SumConcat(f, xs, [x]);
    SumOne(f, x);
  }

  lemma StepAccounted(steps: seq<AgentStep>, events: seq<Compaction>, usage: Usage, step: AgentStep)
    requires Accounted(steps, events, usage)
    ensures Accounted(steps + [step], events, Plus(usage, step.output.usage))
  {
    SumSnoc(StepTokens(Consumed()), steps, step);
    SumSnoc(StepTokens(Produced()), steps, step);
  }

  lemma SentAccounted(agent: Agent, l: Loop, k: nat)
    requires Accounted(l.steps, l.compactions, l.usage)
    ensures var s := Sent(agent, l, k); Accounted(s.steps, s.compactions, s.usage)
  {
    var event := MaybeCompact(l.transcript, agent.policy, agent.summarize, k).1;
    if event.Some? {
      SumSnoc(EventTokens(Consumed()), l.compactions, event.value);
      SumSnoc(EventTokens(Produced()), l.compactions, event.value);
    }
  }

  /** The reported usage is that of all recorded turns and all compactions. */
  lemma {:induction false} UsageAccounted(agent: Agent, l: Loop, k: nat, r: Outcome)
    requires Accounted(l.steps, l.compactions, l.usage) && r == Continue(agent, l, k)
    ensures Accounted(r.steps, r.compactions, r.usage)
    decreases agent.maxSteps - k
  {
    if k < agent.maxSteps {
      var s := Sent(agent, l, k);
      SentAccounted(agent, l, k);
      var out := agent.model(s.transcript, k);
      StepAccounted(s.steps, s.compactions, s.usage, AgentStep(out, ExecuteAll(agent, out.calls, k)));
      if out.calls == [] {
        assert ExecuteAll(agent, out.calls, k) == [];
      } else {
        UsageAccounted(agent, After(agent, s, out, k), k + 1, r);
      }
    }
  }

  // What became of the i-th call of step k: a known tool's answer, or an error that names the unknown tool.
  predicate Executed(agent: Agent, call: ToolCall, k: nat, i: nat, e: Execution) {
    && e.callId == call.id && e.name == call.name && e.arguments == call.arguments
    && (call.name in agent.tools ==> (e.result, e.isError) == agent.runTool(call, k, i))
    && (call.name !in agent.tools ==> e.result == "Unknown tool: " + call.name && e.isError)
  }

  predicate AllExecuted(agent: Agent, step: AgentStep, k: nat) {
    && |step.executions| == |step.output.calls|
    && forall i :: 0 <= i < |step.executions| ==> Executed(agent, step.output.calls[i], k, i, step.executions[i])
  }

  // Each step records its calls and what became of them, one execution for a call, in order.
  predicate Recorded(agent: Agent, steps: seq<AgentStep>) {
    forall k :: 0 <= k < |steps| ==> AllExecuted(agent, steps[k], k)
  }

  // Every step but possibly the last asked for tools.
  predicate Asked(steps: seq<AgentStep>, n: nat) {
    forall i :: 0 <= i < n && i < |steps| ==> steps[i].output.calls != []
  }

  lemma AfterRecorded(agent: Agent, s: Loop, out: Output, k: nat)
    requires |s.steps| == k && Recorded(agent, s.steps)
    ensures Recorded(agent, After(agent, s, out, k).steps)
  {
    assert AllExecuted(agent, AgentStep(out, ExecuteAll(agent, out.calls, k)), k);
  }

  /** The run ends within its step limit; every step asked for tools except the last of a completed run, whose text is
      the answer; and all executions are recorded. */
  lemma {:induction false} RunRecord(agent: Agent, l: Loop, k: nat, r: Outcome)
    requires |l.steps| == k <= agent.maxSteps
    requires Asked(l.steps, k) && Recorded(agent, l.steps)
    requires r == Continue(agent, l, k)
    ensures |r.steps| <= agent.maxSteps
    ensures Recorded(agent, r.steps)
    ensures !r.completed ==> |r.steps| == agent.maxSteps && r.finalText == "" && Asked(r.steps, |r.steps|)
    ensures r.completed ==>
      && r.steps != [] && Asked(r.steps, |r.steps| - 1)
      && r.steps[|r.steps| - 1].output.calls == [] && r.finalText == r.steps[|r.steps| - 1].output.text
    decreases agent.maxSteps - k
  {
    if k < agent.maxSteps {
      var s := Sent(agent, l, k);
      var out := agent.model(s.transcript, k);
      if out.calls == [] {
        assert ExecuteAll(agent, out.calls, k) == [];
      } else {
        AfterRecorded(agent, s, out, k);
        RunRecord(agent, After(agent, s, out, k), k + 1, r);
      }
    }
  }

  // ----- What the model is told -----

  // A step as it goes into the transcript: the answer with its calls, then each call's result, in order.
  function Turn(step: AgentStep): seq<Item> {
    [Assistant(step.output.text, step.output.calls)]
    + seq(|step.executions|, i requires 0 <= i < |step.executions| =>
        var e := step.executions[i];
        ToolResult(e.callId, e.name, e.result, e.isError))
  }

  // Everything said since the run began.
  function Conversation(steps: seq<AgentStep>): seq<Item> {
    if steps == [] then [] else Turn(steps[0]) + Conversation(steps[1..])
  }

  lemma {:induction false} ConversationSnoc(steps: seq<AgentStep>, step: AgentStep)
    ensures Conversation(steps + [step]) == Conversation(steps) + Turn(step)
  {
    if steps == [] {
      assert steps + [step] == [step];
      assert Conversation([step][1..]) == [];
    } else {
      ConversationSnoc(steps[1..], step);
      assert (steps + [step])[0] == steps[0] && (steps + [step])[1..] == steps[1..] + [step];
      Associate(Turn(steps[0]), Conversation(steps[1..]), Turn(step));
    }
  }

  // The transcript is its first item and a suffix of the conversation, from item c on.
  predicate Tells(l: Loop, c: nat) {
    && l.transcript != []
    && c <= |Conversation(l.steps)| && l.transcript[1..] == Conversation(l.steps)[c..]
  }

  // What is left of a suffix, without its first items, is a shorter suffix.
  lemma SuffixShrinks<T>(a: seq<T>, all: seq<T>, c: nat, n: nat)
    requires c <= |all| && a != [] && a[1..] == all[c..] && 1 <= n <= |a|
    ensures c + n - 1 <= |all| && a[n..] == all[c + n - 1..]
  {
    assert a[n..] == a[1..][n - 1..];
    assert all[c..][n - 1..] == all[c + n - 1..];
  }

  // A compaction only moves the start of the suffix.
  lemma {:induction false} CompactedTells(l: Loop, c: nat, t: Transcript, event: Compaction, p: Policy) returns (c': nat)
    requires Tells(l, c) && WellFormed(l.transcript) && Describes(event, l.transcript, t, p)
    ensures Tells(Charged(l, t, Some(event)), c')
  {
    SuffixShrinks(l.transcript, Conversation(l.steps), c, event.summarized);
    c' := c + event.summarized - 1;
  }

  lemma {:induction false} SentTells(agent: Agent, l: Loop, k: nat, c: nat) returns (c': nat)
    requires Tells(l, c) && WellFormed(l.transcript)
    ensures Tells(Sent(agent, l, k), c')
    ensures Sent(agent, l, k).compactions == l.compactions ==> c' == c && Sent(agent, l, k).transcript == l.transcript
  {
    var (t, event) := MaybeCompact(l.transcript, agent.policy, agent.summarize, k);
    CompactionKeepsRounds(l.transcript, agent.policy, agent.summarize, k);
    if event.None? {
      c' := c;
    } else {
      c' := CompactedTells(l, c, t, event.value, agent.policy);
      assert |Sent(agent, l, k).compactions| == |l.compactions| + 1;
    }
  }

  lemma SuffixGrows<T>(a: seq<T>, b: seq<T>, c: nat)
    requires c <= |a|
    ensures (a + b)[c..] == a[c..] + b
  {
  }

  // A turn adds to both ends alike.
  lemma {:induction false} AfterTells(agent: Agent, s: Loop, out: Output, k: nat, c: nat)
    requires Tells(s, c)
    ensures Tells(After(agent, s, out, k), c)
  {
    var step := AgentStep(out, ExecuteAll(agent, out.calls, k));
    var all := Conversation(s.steps);
    ConversationSnoc(s.steps, step);
    var t := After(agent, s, out, k).transcript;
    Associate(s.transcript, [Assistant(out.text, out.calls)], ResultItems(step.executions));
    assert t == s.transcript + Turn(step);
    SuffixGrows(s.transcript, Turn(step), 1);
    SuffixGrows(all, Turn(step), c);
  }

  // From one head to a later one: compactions are only added, and without a new one the start stays.
  ghost predicate Extends(l: Loop, c: nat, l': Loop, c': nat)
    requires l.transcript != [] && l'.transcript != []
  {
    && l.compactions <= l'.compactions
    && (l'.compactions == l.compactions ==> c' == c && l'.transcript[0] == l.transcript[0])
  }

  lemma {:induction false} NextTells(agent: Agent, l: Loop, k: nat, c: nat, next: Loop) returns (c': nat)
    requires Tells(l, c) && WellFormed(l.transcript) && NextHead(agent, l, k) == Some(next)
    ensures Tells(next, c') && Extends(l, c, next, c')
  {
    var s := Sent(agent, l, k);
    var out := agent.model(s.transcript, k);
    c' := SentTells(agent, l, k, c);
    AfterTells(agent, s, out, k, c');
    assert next.transcript[0] == s.transcript[0];
  }

  lemma ExtendsTransitive(l: Loop, c: nat, l': Loop, c': nat, l'': Loop, c'': nat)
    requires l.transcript != [] && l'.transcript != [] && l''.transcript != []
    requires Extends(l, c, l', c') && Extends(l', c', l'', c'')
    ensures Extends(l, c, l'', c'')
  {
  }

  lemma {:induction false} HeadTells(agent: Agent, heads: seq<Loop>, n: nat) returns (c: nat)
    requires IsTrace(agent, heads) && n < |heads| && WellFormed(heads[0].transcript) && Tells(heads[0], 0)
    ensures WellFormed(heads[n].transcript) && Tells(heads[n], c) && Extends(heads[0], 0, heads[n], c)
  {
    if n == 0 {
      c := 0;
    } else {
      var before := HeadTells(agent, heads, n - 1);
      assert Goes(agent, heads, n - 1);
      NextKeepsRounds(agent, heads[n - 1], n - 1);
      c := NextTells(agent, heads[n - 1], n - 1, before, heads[n]);
      ExtendsTransitive(heads[0], 0, heads[n - 1], before, heads[n], c);
    }
  }

  /** At every loop head the transcript is one user item, the input as long as nothing was compacted, followed by a suffix
      of everything said since the run began, word for word: every answer with its calls and every tool's result, all of
      it as long as nothing was compacted. */
  lemma HeadsCarryConversation(agent: Agent, input: string, i: nat) returns (c: nat)
    requires i < |Heads(agent, Begin(input), 0)|
    ensures var l := Heads(agent, Begin(input), 0)[i];
      && l.transcript != [] && l.transcript[0].User?
      && c <= |Conversation(l.steps)| && l.transcript[1..] == Conversation(l.steps)[c..]
      && (l.compactions == [] ==> l.transcript == [User(input)] + Conversation(l.steps))
  {
    var heads := Heads(agent, Begin(input), 0);
    HeadsAreTrace(agent, Begin(input), heads);
    c := HeadTells(agent, heads, i);
    var l := heads[i];
    if l.compactions == [] {
      assert l.transcript == [l.transcript[0]] + l.transcript[1..];
    }
  }

  // One iteration: it adds a step with the model's answer to what was sent, and the run goes on or ends.
  lemma {:induction false} OneIteration(agent: Agent, l: Loop, k: nat, r: Outcome)
    requires r == Continue(agent, l, k)
    ensures var next := NextHead(agent, l, k);
      && (next.Some? ==>
           && r == Continue(agent, next.value, k + 1)
           && next.value.steps == l.steps + [next.value.steps[|l.steps|]]
           && next.value.steps[|l.steps|].output == agent.model(Sent(agent, l, k).transcript, k))
      && (next.None? && k < agent.maxSteps ==>
           && r.steps == l.steps + [r.steps[|l.steps|]]
           && r.steps[|l.steps|].output == agent.model(Sent(agent, l, k).transcript, k))
      && (next.None? && k >= agent.maxSteps ==> r.steps == l.steps)
  {
  }

  lemma {:induction false} NextExtends(agent: Agent, l: Loop, k: nat, next: Loop, steps: seq<AgentStep>)
    requires NextHead(agent, l, k) == Some(next) && steps <= l.steps
    ensures steps <= next.steps
  {
  }

  lemma {:induction false} EndExtends(agent: Agent, l: Loop, k: nat, r: Outcome, steps: seq<AgentStep>)
    requires NextHead(agent, l, k) == None && r == Continue(agent, l, k) && steps <= l.steps
    ensures steps <= r.steps
  {
  }

  lemma {:induction false} KeepsPrefix(agent: Agent, l: Loop, k: nat, r: Outcome, steps: seq<AgentStep>)
    requires r == Continue(agent, l, k) && steps <= l.steps
    ensures steps <= r.steps
    decreases agent.maxSteps - k
  {
    var next := NextHead(agent, l, k);
    if next.Some? {
      var h := next.value;
      assert steps <= h.steps by {
        NextExtends(agent, l, k, h, steps);
      }
      assert r == Continue(agent, h, k + 1) by {
        NextContinues(agent, l, k, h, k + 1, r);
      }
      KeepsPrefix(agent, h, k + 1, r, steps);
    } else {
      EndExtends(agent, l, k, r, steps);
    }
  }

  lemma {:induction false} NextContinues(agent: Agent, l: Loop, k: nat, next: Loop, k': nat, r: Outcome)
    requires NextHead(agent, l, k) == Some(next) && k' == k + 1 && r == Continue(agent, l, k)
    ensures r == Continue(agent, next, k')
  {
  }

  lemma {:induction false} NextAddsStep(agent: Agent, l: Loop, k: nat, next: Loop)
    requires NextHead(agent, l, k) == Some(next)
    ensures |next.steps| == |l.steps| + 1
  {
  }

  lemma {:induction false} TraceStep(agent: Agent, heads: seq<Loop>, i: nat, n: nat)
    requires IsTrace(agent, heads) && n == i + 1 < |heads|
    ensures NextHead(agent, heads[i], i) == Some(heads[n])
  {
    assert Goes(agent, heads, i);
  }

  lemma {:induction false} SameOutcome(agent: Agent, heads: seq<Loop>, i: nat, n: nat, r: Outcome, r': Outcome)
    requires IsTrace(agent, heads) && n == i + 1 < |heads|
    requires r == Continue(agent, heads[i], i) && r' == Continue(agent, heads[n], n)
    ensures r == r'
  {
    TraceStep(agent, heads, i, n);
    NextContinues(agent, heads[i], i, heads[n], n, r);
  }

  lemma {:induction false} AllEqual<T>(s: seq<T>, n: nat)
    requires n < |s| && forall i, j :: 0 <= i && j == i + 1 < |s| ==> s[i] == s[j]
    ensures s[n] == s[0]
  {
    if n > 0 {
      AllEqual(s, n - 1);
    }
  }

  // Every head is on the way to the same outcome.
  lemma {:induction false} HeadContinues(agent: Agent, heads: seq<Loop>, n: nat, r: Outcome)
    requires IsTrace(agent, heads) && n < |heads| && r == Continue(agent, heads[0], 0)
    ensures r == Continue(agent, heads[n], n)
  {
    var outcomes := seq(|heads|, i requires 0 <= i < |heads| => Continue(agent, heads[i], i));
    assert outcomes[0] == r;
    forall i, j | 0 <= i && j == i + 1 < |outcomes|
      ensures outcomes[i] == outcomes[j]
    {
      SameOutcome(agent, heads, i, j, outcomes[i], outcomes[j]);
    }
    AllEqual(outcomes, n);
  }

  // Every head has recorded one step for each iteration before it.
  lemma {:induction false} HeadStepCount(agent: Agent, heads: seq<Loop>, n: nat)
    requires IsTrace(agent, heads) && n < |heads|
    ensures |heads[n].steps| == |heads[0].steps| + n
  {
    if n > 0 {
      HeadStepCount(agent, heads, n - 1);
      assert Goes(agent, heads, n - 1);
      NextAddsStep(agent, heads[n - 1], n - 1, heads[n]);
    }
  }

  // The step recorded in the iteration that starts at head h is the model's answer to what h sends.
  lemma {:induction false} HeadAnswered(agent: Agent, h: Loop, k: nat, r: Outcome)
    requires r == Continue(agent, h, k) && |h.steps| == k < |r.steps|
    ensures h.steps == r.steps[..k] && r.steps[k].output == agent.model(Sent(agent, h, k).transcript, k)
  {
    OneIteration(agent, h, k, r);
    KeepsPrefix(agent, h, k, r, h.steps);
    var next := NextHead(agent, h, k);
    if next.Some? {
      KeepsPrefix(agent, next.value, k + 1, r, next.value.steps);
      assert r.steps[k] == next.value.steps[k];
    }
  }

  /** Step k of the record is the model's answer, at step k, to the transcript of the k-th loop head after its compaction,
      and that head's record is the steps before it. */
  lemma {:induction false} StepsAnswerHeads(agent: Agent, input: string, k: nat, r: Outcome, heads: seq<Loop>)
    requires r == Continue(agent, Begin(input), 0) && heads == Heads(agent, Begin(input), 0) && k < |r.steps|
    ensures k < |heads| && heads[k].steps == r.steps[..k]
    ensures r.steps[k].output == agent.model(MaybeCompact(heads[k].transcript, agent.policy, agent.summarize, k).0, k)
  {
    HeadsAreTrace(agent, Begin(input), heads);
    var last := |heads| - 1;
    HeadContinues(agent, heads, last, r);
    HeadStepCount(agent, heads, last);
    assert Goes(agent, heads, last);
    OneIteration(agent, heads[last], last, r);
    HeadContinues(agent, heads, k, r);
    HeadStepCount(agent, heads, k);
    HeadAnswered(agent, heads[k], k, r);
  }
}
