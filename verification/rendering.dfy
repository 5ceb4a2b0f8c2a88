/** The two wire formats of a transcript. */
module Rendering {
  import opened Wrappers
  import opened Transcripts
  import opened Sums

  // ----- Anthropic: role-merged messages of content blocks -----

  datatype Role = UserRole | AssistantRole

  datatype Block =
    | Text(text: string)
    | ToolUse(id: string, name: string, input: string)
    | ToolResultBlock(useId: string, content: string, isError: bool)

  datatype Message = Message(role: Role, blocks: seq<Block>)

  function UseBlocks(calls: seq<ToolCall>): seq<Block> {
    seq(|calls|, i requires 0 <= i < |calls| => ToolUse(calls[i].id, calls[i].name, calls[i].arguments))
  }

  function ItemRole(item: Item): Role {
    if item.Assistant? then AssistantRole else UserRole
  }

  function ItemBlocks(item: Item): seq<Block> {
    match item
    case User(content) => [Text(content)]
    case Assistant(content, calls) => (if content == "" then [] else [Text(content)]) + UseBlocks(calls)
    case ToolResult(callId, _, content, isError) => [ToolResultBlock(callId, content, isError)]
  }

  // emit: extend the last message if it has the role, else add a message.
  function Emit(messages: seq<Message>, role: Role, blocks: seq<Block>): seq<Message> {
    if messages != [] && messages[|messages| - 1].role == role then
      messages[|messages| - 1 := Message(role, messages[|messages| - 1].blocks + blocks)]
    else
      messages + [Message(role, blocks)]
  }

  function EmitItem(messages: seq<Message>, item: Item): seq<Message> {
    Emit(messages, ItemRole(item), ItemBlocks(item))
  }

  function RenderOnto(messages: seq<Message>, t: seq<Item>): seq<Message>
    decreases t
  {
    if t == [] then messages else RenderOnto(EmitItem(messages, t[0]), t[1..])
  }

  method ToAnthropicMessages(t: Transcript) returns (messages: seq<Message>)
    ensures messages == RenderOnto([], t)
    // so the error for a transcript that renders to nothing is never raised
    ensures messages == [] <==> t == []
  {
    messages := [];
    for i := 0 to |t|
      invariant RenderOnto(messages, t[i..]) == RenderOnto([], t)
      invariant messages == [] <==> i == 0
    {
      assert t[i..][0] == t[i] && t[i..][1..] == t[i + 1..];
      messages := Emit(messages, ItemRole(t[i]), ItemBlocks(t[i]));
    }
  }

  // Roles strictly alternate.
  predicate Alternates(messages: seq<Message>) {
    forall i :: 0 < i < |messages| ==> messages[i].role != messages[i - 1].role
  }

  function Flatten(messages: seq<Message>): seq<Block> {
    if messages == [] then [] else messages[0].blocks + Flatten(messages[1..])
  }

  function AllBlocks(t: seq<Item>): seq<Block> {
    if t == [] then [] else ItemBlocks(t[0]) + AllBlocks(t[1..])
  }

  lemma {:induction false} FlattenConcat(a: seq<Message>, b: seq<Message>)
    ensures Flatten(a + b) == Flatten(a) + Flatten(b)
  {
    if a == [] {
      assert a + b == b;
    } else {
      var rest := a[1..];
      FlattenConcat(rest, b);
      assert a + b == [a[0]] + (rest + b);
      assert (a + b)[1..] == rest + b;
      Associate(a[0].blocks, Flatten(rest), Flatten(b));
    }
  }

  lemma FlattenOne(m: Message)
    ensures Flatten([m]) == m.blocks
  {
    assert [m][1..] == [] && m.blocks + [] == m.blocks;
  }

  lemma EmitFlatten(messages: seq<Message>, role: Role, blocks: seq<Block>)
    ensures Flatten(Emit(messages, role, blocks)) == Flatten(messages) + blocks
  {
    if messages != [] && messages[|messages| - 1].role == role {
      var front, last := messages[..|messages| - 1], messages[|messages| - 1];
      var grown := Message(role, last.blocks + blocks);
      assert messages == front + [last] && Emit(messages, role, blocks) == front + [grown];
      FlattenConcat(front, [last]);
      FlattenConcat(front, [grown]);
      FlattenOne(last);
      FlattenOne(grown);
      Associate(Flatten(front), last.blocks, blocks);
    } else {
      FlattenConcat(messages, [Message(role, blocks)]);
      FlattenOne(Message(role, blocks));
    }
  }

  lemma EmitAlternates(messages: seq<Message>, role: Role, blocks: seq<Block>)
    requires Alternates(messages)
    ensures Alternates(Emit(messages, role, blocks))
  {
  }

  /** For every transcript the roles strictly alternate. */
  lemma {:induction false} RolesAlternate(messages: seq<Message>, t: seq<Item>)
    requires Alternates(messages)
    ensures Alternates(RenderOnto(messages, t))
    decreases t
  {
    if t != [] {
      EmitAlternates(messages, ItemRole(t[0]), ItemBlocks(t[0]));
      RolesAlternate(Emit(messages, ItemRole(t[0]), ItemBlocks(t[0])), t[1..]);
    }
  }

  /** For every transcript the blocks of all messages, concatenated, are the blocks of the items in order. */
  lemma {:induction false} BlocksPreserved(messages: seq<Message>, t: seq<Item>)
    ensures Flatten(RenderOnto(messages, t)) == Flatten(messages) + AllBlocks(t)
    decreases t
  {
    if t == [] {
      assert Flatten(messages) + [] == Flatten(messages);
    } else {
      EmitFlatten(messages, ItemRole(t[0]), ItemBlocks(t[0]));
      BlocksPreserved(Emit(messages, ItemRole(t[0]), ItemBlocks(t[0])), t[1..]);
      Associate(Flatten(messages), ItemBlocks(t[0]), AllBlocks(t[1..]));
    }
  }

  // ----- Tool uses and their results -----

  function Uses(blocks: seq<Block>): seq<string> {
    if blocks == [] then [] else (if blocks[0].ToolUse? then [blocks[0].id] else []) + Uses(blocks[1..])
  }

  function Results(blocks: seq<Block>): seq<string> {
    if blocks == [] then [] else (if blocks[0].ToolResultBlock? then [blocks[0].useId] else []) + Results(blocks[1..])
  }

  function Ids(calls: seq<ToolCall>): seq<string> {
    if calls == [] then [] else [calls[0].id] + Ids(calls[1..])
  }

  lemma {:induction false} UsesOfCalls(calls: seq<ToolCall>)
    ensures Uses(UseBlocks(calls)) == Ids(calls)
  {
    if calls != [] {
      UsesOfCalls(calls[1..]);
      assert UseBlocks(calls)[1..] == UseBlocks(calls[1..]);
    }
  }

  lemma UsesOfAssistant(content: string, calls: seq<ToolCall>)
    ensures Uses(ItemBlocks(Assistant(content, calls))) == Ids(calls)
  {
    UsesOfCalls(calls);
    var blocks := ItemBlocks(Assistant(content, calls));
    if content == "" {
      assert blocks == UseBlocks(calls);
    } else {
      assert blocks[0] == Text(content) && blocks[1..] == UseBlocks(calls);
      assert [] + Uses(blocks[1..]) == Uses(blocks[1..]);
    }
  }

  lemma {:induction false} ResultsOfAnswers(calls: seq<ToolCall>, items: seq<Item>)
    requires Answers(calls, items)
    ensures Results(AllBlocks(items)) == Ids(calls)
  {
    if calls != [] {
      assert Answers(calls[1..], items[1..]);
      ResultsOfAnswers(calls[1..], items[1..]);
      assert AllBlocks(items)[0] == ItemBlocks(items[0])[0] && AllBlocks(items)[1..] == AllBlocks(items[1..]);
    }
  }

  // Every assistant message is followed by a user message that answers exactly its tool uses, in order.
  predicate Paired(messages: seq<Message>) {
    forall i :: 0 <= i < |messages| && messages[i].role == AssistantRole ==>
      i + 1 < |messages| && messages[i + 1].role == UserRole && Uses(messages[i].blocks) == Results(messages[i + 1].blocks)
  }

  // Results rendered onto a user message end up in it.
  lemma {:induction false} ResultsMerge(front: seq<Message>, blocks: seq<Block>, items: seq<Item>)
    requires forall i :: 0 <= i < |items| ==> items[i].ToolResult?
    ensures RenderOnto(front + [Message(UserRole, blocks)], items) == front + [Message(UserRole, blocks + AllBlocks(items))]
    decreases items
  {
    if items == [] {
      assert blocks + [] == blocks;
    } else {
      var before := front + [Message(UserRole, blocks)];
      var grown := blocks + ItemBlocks(items[0]);
      assert Emit(before, UserRole, ItemBlocks(items[0])) == front + [Message(UserRole, grown)];
      ResultsMerge(front, grown, items[1..]);
      assert grown + AllBlocks(items[1..]) == blocks + AllBlocks(items);
    }
  }

  lemma {:induction false} RenderConcat(messages: seq<Message>, t: seq<Item>, u: seq<Item>)
    ensures RenderOnto(messages, t + u) == RenderOnto(RenderOnto(messages, t), u)
    decreases t
  {
    if t == [] {
      assert t + u == u;
    } else {
      assert (t + u)[0] == t[0] && (t + u)[1..] == t[1..] + u;
      RenderConcat(EmitItem(messages, t[0]), t[1..], u);
    }
  }

  // One round adds one assistant message and one user message.
  lemma {:induction false} RoundRenders(messages: seq<Message>, call: Item, items: seq<Item>)
    requires messages != [] && messages[|messages| - 1].role == UserRole
    requires call.Assistant? && call.calls != [] && Answers(call.calls, items)
    ensures RenderOnto(messages, [call] + items)
      == messages + [Message(AssistantRole, ItemBlocks(call)), Message(UserRole, AllBlocks(items))]
  {
    var asked := messages + [Message(AssistantRole, ItemBlocks(call))];
    assert ([call] + items)[1..] == items;
    var first := ItemBlocks(items[0]);
    assert Emit(asked, UserRole, first) == asked + [Message(UserRole, first)];
    ResultsMerge(asked, first, items[1..]);
    assert asked + [Message(UserRole, AllBlocks(items))]
      == messages + [Message(AssistantRole, ItemBlocks(call)), Message(UserRole, AllBlocks(items))];
  }

  lemma {:induction false} RoundsPaired(messages: seq<Message>, t: seq<Item>)
    requires messages != [] && messages[|messages| - 1].role == UserRole && Paired(messages) && Rounds(t)
    ensures Paired(RenderOnto(messages, t))
    decreases t
  {
    if t != [] {
      var n := |t[0].calls| + 1;
      var call, items, rest := t[0], t[1..n], t[n..];
      assert t == ([call] + items) + rest;
      RenderConcat(messages, [call] + items, rest);
      RoundRenders(messages, call, items);
      UsesOfAssistant(call.content, call.calls);
      ResultsOfAnswers(call.calls, items);
      var next := messages + [Message(AssistantRole, ItemBlocks(call)), Message(UserRole, AllBlocks(items))];
      RoundsPaired(next, rest);
    }
  }

  /** On every transcript the agent loop sends, each assistant message's tool uses are answered, in order, by the very
      next message, and the conversation starts with the user. */
  lemma LoopTranscriptsPaired(t: Transcript)
    requires WellFormed(t)
    ensures Paired(RenderOnto([], t)) && Alternates(RenderOnto([], t))
    ensures RenderOnto([], t) != [] && RenderOnto([], t)[0].role == UserRole
  {
    var first := [Message(UserRole, ItemBlocks(t[0]))];
    assert Emit([], UserRole, ItemBlocks(t[0])) == first;
    RoundsPaired(first, t[1..]);
    RolesAlternate(first, t[1..]);
    FirstRoleKept(first, t[1..]);
  }

  lemma {:induction false} FirstRoleKept(messages: seq<Message>, t: seq<Item>)
    requires messages != []
    ensures RenderOnto(messages, t) != [] && RenderOnto(messages, t)[0].role == messages[0].role
    decreases t
  {
    if t != [] {
      FirstRoleKept(Emit(messages, ItemRole(t[0]), ItemBlocks(t[0])), t[1..]);
    }
  }

  // ----- OpenAI: one message for each item -----

  datatype ChatMessage =
    | System(content: string)
    | UserChat(content: string)
    | AssistantChat(text: Option<string>, calls: seq<ToolCall>)
    | ToolChat(callId: string, content: string)

  function ChatOf(item: Item): ChatMessage {
    match item
    case User(content) => UserChat(content)
    case Assistant(content, calls) => AssistantChat(if content == "" then None else Some(content), calls)
    case ToolResult(callId, _, content, _) => ToolChat(callId, content)
  }

  function Chat(t: seq<Item>): (r: seq<ChatMessage>)
    ensures |r| == |t|
  {
    if t == [] then [] else [ChatOf(t[0])] + Chat(t[1..])
  }

  lemma {:induction false} ChatSnoc(t: seq<Item>, item: Item)
    ensures Chat(t + [item]) == Chat(t) + [ChatOf(item)]
  {
    if t == [] {
      assert t + [item] == [item];
    } else {
      ChatSnoc(t[1..], item);
      assert (t + [item])[1..] == t[1..] + [item];
    }
  }

  method ToOpenAIMessages(t: Transcript, system: string) returns (messages: seq<ChatMessage>)
    ensures messages == (if system == "" then [] else [System(system)]) + Chat(t)
    // so the error for a transcript that renders to nothing is never raised
    ensures t != [] ==> |messages| > if system == "" then 0 else 1
  {
    messages := if system == "" then [] else [System(system)];
    ghost var prompt := messages;
    for i := 0 to |t|
      invariant messages == prompt + Chat(t[..i])
    {
      ChatSnoc(t[..i], t[i]);
      assert t[..i + 1] == t[..i] + [t[i]];
      messages := messages + [ChatOf(t[i])];
    }
    assert t[..|t|] == t;
  }

  // The (id, name, arguments) of every call and the (id, content) of every result, in wire order.
  datatype Wire = Wire(calls: seq<(string, string, string)>, results: seq<(string, string)>)

  function WireCalls(calls: seq<ToolCall>): seq<(string, string, string)> {
    if calls == [] then [] else [(calls[0].id, calls[0].name, calls[0].arguments)] + WireCalls(calls[1..])
  }

  function ChatWire(messages: seq<ChatMessage>): Wire {
    if messages == [] then Wire([], [])
    else
      var rest := ChatWire(messages[1..]);
      match messages[0]
      case AssistantChat(_, calls) => rest.(calls := WireCalls(calls) + rest.calls)
      case ToolChat(callId, content) => rest.(results := [(callId, content)] + rest.results)
      case _ => rest
  }

  function BlockWire(blocks: seq<Block>): Wire {
    if blocks == [] then Wire([], [])
    else
      var rest := BlockWire(blocks[1..]);
      match blocks[0]
      case ToolUse(id, name, input) => rest.(calls := [(id, name, input)] + rest.calls)
      case ToolResultBlock(id, content, _) => rest.(results := [(id, content)] + rest.results)
      case Text(_) => rest
  }

  lemma {:induction false} BlockWireUses(calls: seq<ToolCall>, rest: seq<Block>)
    ensures BlockWire(UseBlocks(calls) + rest) == BlockWire(rest).(calls := WireCalls(calls) + BlockWire(rest).calls)
  {
    if calls == [] {
      assert UseBlocks(calls) + rest == rest;
    } else {
      BlockWireUses(calls[1..], rest);
      assert (UseBlocks(calls) + rest)[1..] == UseBlocks(calls[1..]) + rest;
    }
  }

  lemma BlockWireText(content: string, rest: seq<Block>)
    ensures BlockWire([Text(content)] + rest) == BlockWire(rest)
  {
    assert ([Text(content)] + rest)[1..] == rest;
  }

  lemma {:induction false} BlockWireItem(item: Item, rest: seq<Block>)
    ensures BlockWire(ItemBlocks(item) + rest) == match item
      case User(_) => BlockWire(rest)
      case Assistant(_, calls) => BlockWire(rest).(calls := WireCalls(calls) + BlockWire(rest).calls)
      case ToolResult(callId, _, content, _) => BlockWire(rest).(results := [(callId, content)] + BlockWire(rest).results)
  {
    match item
    case Assistant(content, calls) =>
      BlockWireUses(calls, rest);
      if content == "" {
        assert [] + UseBlocks(calls) == UseBlocks(calls);
      } else {
        BlockWireText(content, UseBlocks(calls) + rest);
        Associate([Text(content)], UseBlocks(calls), rest);
      }
    case _ =>
      assert (ItemBlocks(item) + rest)[1..] == rest;
  }

  lemma {:induction false} ItemsWire(t: seq<Item>)
    ensures ChatWire(Chat(t)) == BlockWire(AllBlocks(t))
  {
    if t != [] {
      ItemsWire(t[1..]);
      BlockWireItem(t[0], AllBlocks(t[1..]));
      assert Chat(t)[1..] == Chat(t[1..]);
    }
  }

  /** Both providers see the same calls and the same results in the same order, whatever the transcript: the rendered
      chat messages and the blocks of the merged messages carry one wire. */
  lemma SameWire(t: seq<Item>)
    ensures ChatWire(Chat(t)) == BlockWire(Flatten(RenderOnto([], t)))
  {
    ItemsWire(t);
    BlocksPreserved([], t);
    assert Flatten([]) + AllBlocks(t) == AllBlocks(t);
  }

  // ----- What the wire says -----

  // What a transcript says, item by item: texts with their speaker, calls, and results with their error flag.
  datatype Event =
    | Said(role: Role, text: string)
    | Called(id: string, name: string, arguments: string)
    | Answered(id: string, content: string, isError: bool)

  function CallEvents(calls: seq<ToolCall>): seq<Event> {
    if calls == [] then [] else [Called(calls[0].id, calls[0].name, calls[0].arguments)] + CallEvents(calls[1..])
  }

  function ItemEvents(item: Item): seq<Event> {
    match item
    case User(content) => [Said(UserRole, content)]
    case Assistant(content, calls) => (if content == "" then [] else [Said(AssistantRole, content)]) + CallEvents(calls)
    case ToolResult(callId, _, content, isError) => [Answered(callId, content, isError)]
  }

  function Events(t: seq<Item>): seq<Event> {
    if t == [] then [] else ItemEvents(t[0]) + Events(t[1..])
  }

  // Reading Anthropic messages.

  function ReadBlocks(role: Role, blocks: seq<Block>): seq<Event> {
    if blocks == [] then []
    else
      [match blocks[0]
       case Text(text) => Said(role, text)
       case ToolUse(id, name, input) => Called(id, name, input)
       case ToolResultBlock(id, content, isError) => Answered(id, content, isError)]
      + ReadBlocks(role, blocks[1..])
  }

  function ReadMessages(messages: seq<Message>): seq<Event> {
    if messages == [] then [] else ReadBlocks(messages[0].role, messages[0].blocks) + ReadMessages(messages[1..])
  }

  lemma {:induction false} ReadBlocksConcat(role: Role, a: seq<Block>, b: seq<Block>)
    ensures ReadBlocks(role, a + b) == ReadBlocks(role, a) + ReadBlocks(role, b)
  {
    if a == [] {
      assert a + b == b;
    } else {
      ReadBlocksConcat(role, a[1..], b);
      assert (a + b)[0] == a[0] && (a + b)[1..] == a[1..] + b;
      assert a == [a[0]] + a[1..];
      Associate(ReadBlocks(role, a)[..1], ReadBlocks(role, a[1..]), ReadBlocks(role, b));
    }
  }

  lemma {:induction false} ReadMessagesConcat(a: seq<Message>, b: seq<Message>)
    ensures ReadMessages(a + b) == ReadMessages(a) + ReadMessages(b)
  {
    if a == [] {
      assert a + b == b;
    } else {
      ReadMessagesConcat(a[1..], b);
      assert (a + b)[0] == a[0] && (a + b)[1..] == a[1..] + b;
      Associate(ReadBlocks(a[0].role, a[0].blocks), ReadMessages(a[1..]), ReadMessages(b));
    }
  }

  lemma ReadOne(m: Message)
    ensures ReadMessages([m]) == ReadBlocks(m.role, m.blocks)
  {
    assert ReadMessages([m][1..]) == [];
  }

  // Merging into the last message reads as a message of its own.
  lemma ReadEmit(messages: seq<Message>, role: Role, blocks: seq<Block>)
    ensures ReadMessages(Emit(messages, role, blocks)) == ReadMessages(messages) + ReadBlocks(role, blocks)
  {
    if messages != [] && messages[|messages| - 1].role == role {
      var front, last := messages[..|messages| - 1], messages[|messages| - 1];
      var grown := Message(role, last.blocks + blocks);
      assert messages == front + [last] && Emit(messages, role, blocks) == front + [grown];
      ReadMessagesConcat(front, [last]);
      ReadMessagesConcat(front, [grown]);
      ReadOne(last);
      ReadOne(grown);
      ReadBlocksConcat(role, last.blocks, blocks);
      Associate(ReadMessages(front), ReadBlocks(role, last.blocks), ReadBlocks(role, blocks));
    } else {
      ReadMessagesConcat(messages, [Message(role, blocks)]);
      ReadOne(Message(role, blocks));
    }
  }

  lemma {:induction false} ReadUses(calls: seq<ToolCall>)
    ensures ReadBlocks(AssistantRole, UseBlocks(calls)) == CallEvents(calls)
  {
    if calls != [] {
      ReadUses(calls[1..]);
      assert UseBlocks(calls)[1..] == UseBlocks(calls[1..]);
    }
  }

  lemma ReadText(role: Role, text: string, rest: seq<Block>)
    ensures ReadBlocks(role, [Text(text)] + rest) == [Said(role, text)] + ReadBlocks(role, rest)
  {
    assert ([Text(text)] + rest)[1..] == rest;
  }

  lemma ReadItem(item: Item)
    ensures ReadBlocks(ItemRole(item), ItemBlocks(item)) == ItemEvents(item)
  {
    match item
    case User(content) =>
      ReadText(UserRole, content, []);
      assert [Text(content)] + [] == [Text(content)];
    case Assistant(content, calls) =>
      ReadUses(calls);
      if content == "" {
        assert [] + UseBlocks(calls) == UseBlocks(calls);
      } else {
        ReadText(AssistantRole, content, UseBlocks(calls));
      }
    case ToolResult(callId, _, content, isError) =>
      assert ReadBlocks(UserRole, ItemBlocks(item)[1..]) == [];
  }

  /** The Anthropic messages say exactly what the transcript says, in order: every text with its speaker, every call, and
      every result with its error flag; only the text of a wordless answer is left out. */
  lemma {:induction false} MessagesSayTranscript(messages: seq<Message>, t: seq<Item>)
    ensures ReadMessages(RenderOnto(messages, t)) == ReadMessages(messages) + Events(t)
    decreases t
  {
    if t == [] {
      assert ReadMessages(messages) + [] == ReadMessages(messages);
    } else {
      var next := Emit(messages, ItemRole(t[0]), ItemBlocks(t[0]));
      MessagesSayTranscript(next, t[1..]);
      ReadEmit(messages, ItemRole(t[0]), ItemBlocks(t[0]));
      ReadItem(t[0]);
      Associate(ReadMessages(messages), ItemEvents(t[0]), Events(t[1..]));
    }
  }

  // Reading OpenAI messages: there is no error flag on this wire.
  function ReadChat(messages: seq<ChatMessage>): seq<Event> {
    if messages == [] then []
    else
      (match messages[0]
       case System(_) => []
       case UserChat(content) => [Said(UserRole, content)]
       case AssistantChat(text, calls) =>
         (if text.Some? then [Said(AssistantRole, text.value)] else []) + CallEvents(calls)
       case ToolChat(callId, content) => [Answered(callId, content, false)])
      + ReadChat(messages[1..])
  }

  // The transcript without its error flags.
  function Unflagged(t: seq<Item>): seq<Item> {
    if t == [] then []
    else [if t[0].ToolResult? then t[0].(isError := false) else t[0]] + Unflagged(t[1..])
  }

  /** The OpenAI messages say exactly what the transcript says, in order, but for the results' error flags. */
  lemma {:induction false} ChatSaysTranscript(t: seq<Item>)
    ensures ReadChat(Chat(t)) == Events(Unflagged(t))
  {
    if t != [] {
      ChatSaysTranscript(t[1..]);
      assert Chat(t)[1..] == Chat(t[1..]) && Unflagged(t)[1..] == Unflagged(t[1..]);
    }
  }
}
