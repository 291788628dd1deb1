/** The two translations of one Anthropic message (`anthropic.rs`): `chat` reads it whole, `chat_stream` reads the
  events it is streamed as.  The JSON of a tool input is kept as its serialized text. */
module Anthropic {
  import opened Numbers
  import opened Options

  // --- The provider's message -------------------------------------------------------------

  datatype Block =
    | Text(text: string)
    | Thinking(thinking: string)
    | ToolUse(id: Option<string>, name: Option<string>, input: Option<string>)
    | OtherBlock

  datatype WireUsage = WireUsage(inputTokens: nat, outputTokens: nat, cacheCreation: nat, cacheRead: nat)

  datatype Message = Message(content: seq<Block>, stopReason: Option<string>, usage: WireUsage)

  /** `forced` names the tool made up for a response schema. */
  datatype Mode = Mode(forced: Option<string>, excludeReasoning: bool)

  // --- The client's answer -------------------------------------------------------------------

  datatype ToolCall = ToolCall(id: string, name: string, arguments: string)

  datatype Usage = Usage(
    promptTokens: nat,
    completionTokens: nat,
    totalTokens: nat,
    cachedTokens: Option<nat>,
    cacheCreationTokens: Option<nat>)

  datatype Answer = Answer(
    content: Option<string>,
    reasoning: Option<string>,
    toolCalls: Option<seq<ToolCall>>,
    finishReason: Option<string>,
    usage: Option<Usage>)

  datatype Result = Ok(answer: Answer) | Err

  function OrEmpty(s: Option<string>): string {
    if s.Some? then s.value else ""
  }

  function InputText(b: Block): string
    requires b.ToolUse?
  {
    if b.input.Some? then b.input.value else "{}"
  }

  function AsU32(x: nat): nat {
    x % U32_LIMIT
  }

  function SomeIfPositive(x: nat): Option<nat> {
    if x > 0 then Some(x) else None
  }

  /** `u32` additions wrap. */
  function SumU32(a: nat, b: nat, c: nat): nat {
    AsU32(AsU32(a + b) + c)
  }

  function UsageOf(prompt: nat, output: nat, creation: nat, cached: nat): Usage {
    Usage(prompt, output, AsU32(prompt + output), SomeIfPositive(cached), SomeIfPositive(creation))
  }

  /** `usage_from_wire` adds the cached tokens first, the stream the cache creation tokens. */
  function ChatUsage(u: WireUsage): Usage {
    UsageOf(SumU32(u.inputTokens, u.cacheRead, u.cacheCreation), u.outputTokens, u.cacheCreation, u.cacheRead)
  }

  function StreamUsage(c: Counters, output: nat): Usage {
    UsageOf(SumU32(c.inputTokens, c.cacheCreation, c.cached), output, c.cacheCreation, c.cached)
  }

  function MapStopReason(reason: string): string {
    if reason == "end_turn" || reason == "stop_sequence" then "stop"
    else if reason == "max_tokens" then "length"
    else if reason == "tool_use" then "tool_calls"
    else "stop"
  }

  function FinishReason(mode: Mode, stopReason: Option<string>): Option<string> {
    if mode.forced.Some? then Some("stop")
    else if stopReason.Some? then Some(MapStopReason(stopReason.value))
    else None
  }

  function NonEmpty(s: string): Option<string> {
    if s == "" then None else Some(s)
  }

  // --- The whole response --------------------------------------------------------------------

  datatype Acc = Acc(text: string, reasoning: string, toolCalls: seq<ToolCall>)

  /** One more block; the tool calls chosen by `folds` count as text. */
  function Extended(acc: Acc, b: Block, folds: string -> bool): Acc {
    match b
    case Text(text) => acc.(text := acc.text + text)
    case Thinking(thinking) => acc.(reasoning := acc.reasoning + thinking)
    case ToolUse(id, name, input) =>
      if folds(OrEmpty(name)) then acc.(text := acc.text + InputText(b))
      else acc.(toolCalls := acc.toolCalls + [ToolCall(OrEmpty(id), OrEmpty(name), InputText(b))])
    case OtherBlock => acc
  }

  function Folded(blocks: seq<Block>, folds: string -> bool): Acc {
    if blocks == [] then Acc("", "", [])
    else Extended(Folded(blocks[..|blocks| - 1], folds), blocks[|blocks| - 1], folds)
  }

  /** `chat` folds the call of the forced tool into the text. */
  function IsForcedTool(mode: Mode): string -> bool {
    (name: string) => mode.forced == Some(name)
  }

  function AnswerOf(mode: Mode, acc: Acc, finishReason: Option<string>, usage: Option<Usage>): Answer {
    Answer(NonEmpty(acc.text),
           if mode.excludeReasoning then None else NonEmpty(acc.reasoning),
           if acc.toolCalls == [] then None else Some(acc.toolCalls),
           finishReason, usage)
  }

  /** Every counter is an `u32` of the wire type; a larger one does not decode. */
  predicate CountersFit(u: WireUsage) {
    u.inputTokens < U32_LIMIT && u.outputTokens < U32_LIMIT && u.cacheCreation < U32_LIMIT && u.cacheRead < U32_LIMIT
  }

  function ChatResult(mode: Mode, m: Message): Result {
    if !CountersFit(m.usage) then Err
    else
      Ok(AnswerOf(mode, Folded(m.content, IsForcedTool(mode)), FinishReason(mode, m.stopReason),
                  Some(ChatUsage(m.usage))))
  }

  method Chat(mode: Mode, m: Message) returns (result: Result)
    ensures result == ChatResult(mode, m)
  {
    if !CountersFit(m.usage) {
      return Err;
    }
    var text, reasoning := "", "";
    var toolCalls: seq<ToolCall> := [];
    for i := 0 to |m.content|
      invariant Acc(text, reasoning, toolCalls) == Folded(m.content[..i], IsForcedTool(mode))
    {
      var b := m.content[i];
      assert m.content[..i + 1][..i] == m.content[..i];
      match b {
        case Text(t) => text := text + t;
        case Thinking(t) => reasoning := reasoning + t;
        case ToolUse(id, name, input) =>
          var toolName, arguments := OrEmpty(name), InputText(b);
          if mode.forced == Some(toolName) {
            text := text + arguments;
          } else {
            toolCalls := toolCalls + [ToolCall(OrEmpty(id), toolName, arguments)];
          }
        case OtherBlock =>
      }
    }
    assert m.content[..|m.content|] == m.content;
    result := Ok(AnswerOf(mode, Acc(text, reasoning, toolCalls), FinishReason(mode, m.stopReason),
                          Some(ChatUsage(m.usage))));
  }

  // --- The stream -------------------------------------------------------------------------------

  datatype Event =
    | MessageStart(inputTokens: nat, cacheCreation: nat, cacheRead: nat)
    | ToolStart(index: nat, id: Option<string>, name: Option<string>)
    | OtherStart(index: nat)
    | TextDelta(index: nat, text: string)
    | JsonDelta(index: nat, partial: string)
    | ThinkingDelta(index: nat, thinking: string)
    | OtherDelta(index: nat)
    | BlockStop(index: nat)
    | MessageDelta(stopReason: Option<string>, outputTokens: nat)
    | MessageStop
    | Ping
    | UnknownEvent
    | ErrorEvent(message: string)

  datatype ToolCallDelta = ToolCallDelta(index: nat, id: Option<string>, name: Option<string>, arguments: string)

  datatype Chunk =
    | RoleChunk
    | ContentChunk(content: string)
    | ReasoningChunk(reasoning: string)
    | ToolChunk(delta: ToolCallDelta)
    | FinalChunk(finishReason: Option<string>, usage: Usage)
    | ErrorItem(message: string)

  /** The captured counters of the stream closure. */
  datatype Counters = Counters(inputTokens: nat, cacheCreation: nat, cached: nat)

  function CountersAfter(c: Counters, e: Event): Counters {
    if e.MessageStart? then Counters(AsU32(e.inputTokens), AsU32(e.cacheCreation), AsU32(e.cacheRead)) else c
  }

  function ChunkFor(mode: Mode, c: Counters, e: Event): Option<Chunk> {
    match e
    case MessageStart(_, _, _) => Some(RoleChunk)
    case ToolStart(index, id, name) =>
      if mode.forced.Some? then None
      else Some(ToolChunk(ToolCallDelta(AsU32(index), Some(OrEmpty(id)), Some(OrEmpty(name)), "")))
    case TextDelta(_, text) => Some(ContentChunk(text))
    case JsonDelta(index, partial) =>
      if mode.forced.Some? then Some(ContentChunk(partial))
      else Some(ToolChunk(ToolCallDelta(AsU32(index), None, None, partial)))
    case ThinkingDelta(_, thinking) =>
      if mode.excludeReasoning || thinking == "" then None else Some(ReasoningChunk(thinking))
    case MessageDelta(stopReason, output) =>
      Some(FinalChunk(FinishReason(mode, stopReason), StreamUsage(c, AsU32(output))))
    case ErrorEvent(message) => Some(ErrorItem(message))
    case OtherStart(_) => None
    case OtherDelta(_) => None
    case BlockStop(_) => None
    case MessageStop => None
    case Ping => None
    case UnknownEvent => None
  }

  class StreamState {
    const mode: Mode
    var inputTokens: nat
    var cacheCreation: nat
    var cached: nat

    ghost function Value(): Counters
      reads this
    {
      Counters(inputTokens, cacheCreation, cached)
    }

    constructor (mode: Mode)
      ensures this.mode == mode && Value() == Counters(0, 0, 0)
    {
      this.mode := mode;
      inputTokens, cacheCreation, cached := 0, 0, 0;
    }

    /** The body of the stream closure. */
    method OnEvent(e: Event) returns (chunk: Option<Chunk>)
      modifies this
      ensures Value() == CountersAfter(old(Value()), e)
      ensures chunk == ChunkFor(mode, Value(), e)
    {
      chunk := None;
      match e {
        case MessageStart(input, creation, read) =>
          inputTokens := AsU32(input);
          cacheCreation := AsU32(creation);
          cached := AsU32(read);
          chunk := Some(RoleChunk);
        case ToolStart(index, id, name) =>
          if mode.forced.None? {
            chunk := Some(ToolChunk(ToolCallDelta(AsU32(index), Some(OrEmpty(id)), Some(OrEmpty(name)), "")));
          }
        case TextDelta(_, text) =>
          chunk := Some(ContentChunk(text));
        case JsonDelta(index, partial) =>
          if mode.forced.Some? {
            chunk := Some(ContentChunk(partial));
          } else {
            chunk := Some(ToolChunk(ToolCallDelta(AsU32(index), None, None, partial)));
          }
        case ThinkingDelta(_, thinking) =>
          if !mode.excludeReasoning && thinking != "" {
            chunk := Some(ReasoningChunk(thinking));
          }
        case MessageDelta(stopReason, output) =>
          var finishReason := Some("stop");
          if mode.forced.None? {
            finishReason := if stopReason.Some? then Some(MapStopReason(stopReason.value)) else None;
          }
          var outputTokens := AsU32(output);
          var promptTokens := AsU32(AsU32(inputTokens + cacheCreation) + cached);
          chunk := Some(FinalChunk(finishReason,
                                   Usage(promptTokens, outputTokens, AsU32(promptTokens + outputTokens),
                                         SomeIfPositive(cached), SomeIfPositive(cacheCreation))));
        case ErrorEvent(message) =>
          chunk := Some(ErrorItem(message));
        case _ =>
      }
    }
  }

  /** `filter_map` over the provider's events: what a client puts together from the chunks is the streamed answer. */
  method ChatStream(mode: Mode, es: seq<Event>) returns (chunks: seq<Chunk>)
    ensures Assembled(ReceivedAll(NEW_CLIENT, chunks)) == StreamResult(mode, es)
  {
    chunks := [];
    var state := new StreamState(mode);
    for i := 0 to |es|
      invariant state.mode == mode
      invariant Run(mode, Session(state.Value(), ReceivedAll(NEW_CLIENT, chunks)), es[i..])
                == Run(mode, NEW_SESSION, es)
    {
      var chunk := state.OnEvent(es[i]);
      assert es[i..][0] == es[i] && es[i..][1..] == es[i + 1..];
      if chunk.Some? {
        assert (chunks + [chunk.value])[..|chunks|] == chunks;
        chunks := chunks + [chunk.value];
      }
    }
    assert es[|es|..] == [];
  }

  // --- The client that puts the chunks together ------------------------------------------------------

  datatype Entry = Entry(index: nat, call: ToolCall)

  /** `id` and `name` arrive once, with the index of the call; argument fragments follow under that index. */
  datatype Client = Client(
    content: string,
    reasoning: string,
    calls: seq<Entry>,
    finishReason: Option<string>,
    usage: Option<Usage>,
    failed: bool)

  const NEW_CLIENT: Client := Client("", "", [], None, None, false)

  function WithFragment(e: Entry, index: nat, fragment: string): Entry {
    if e.index == index then e.(call := e.call.(arguments := e.call.arguments + fragment)) else e
  }

  function WithFragments(calls: seq<Entry>, index: nat, fragment: string): seq<Entry> {
    seq(|calls|, i requires 0 <= i < |calls| => WithFragment(calls[i], index, fragment))
  }

  function Received(c: Client, chunk: Chunk): Client {
    match chunk
    case RoleChunk => c
    case ContentChunk(content) => c.(content := c.content + content)
    case ReasoningChunk(reasoning) => c.(reasoning := c.reasoning + reasoning)
    case ToolChunk(delta) =>
      if delta.id.Some? then
        c.(calls := c.calls + [Entry(delta.index, ToolCall(delta.id.value, OrEmpty(delta.name), delta.arguments))])
      else
        c.(calls := WithFragments(c.calls, delta.index, delta.arguments))
    case FinalChunk(finishReason, usage) => c.(finishReason := finishReason, usage := Some(usage))
    case ErrorItem(_) => c.(failed := true)
  }

  function ReceivedAll(c: Client, chunks: seq<Chunk>): Client {
    if chunks == [] then c else Received(ReceivedAll(c, chunks[..|chunks| - 1]), chunks[|chunks| - 1])
  }

  function Calls(entries: seq<Entry>): seq<ToolCall> {
    seq(|entries|, i requires 0 <= i < |entries| => entries[i].call)
  }

  function Assembled(c: Client): Result {
    if c.failed then Err
    else
      Ok(Answer(NonEmpty(c.content), NonEmpty(c.reasoning), if c.calls == [] then None else Some(Calls(c.calls)),
                c.finishReason, c.usage))
  }

  datatype Session = Session(counters: Counters, client: Client)

  const NEW_SESSION: Session := Session(Counters(0, 0, 0), NEW_CLIENT)

  function Step(mode: Mode, s: Session, e: Event): Session {
    var counters := CountersAfter(s.counters, e);
    var chunk := ChunkFor(mode, counters, e);
    Session(counters, if chunk.Some? then Received(s.client, chunk.value) else s.client)
  }

  function Run(mode: Mode, s: Session, es: seq<Event>): Session
    decreases es
  {
    if es == [] then s else Run(mode, Step(mode, s, es[0]), es[1..])
  }

  function StreamResult(mode: Mode, es: seq<Event>): Result {
    Assembled(Run(mode, NEW_SESSION, es).client)
  }

  // --- How a message is streamed ------------------------------------------------------------------------

  function Deltas(b: Block, index: nat, fragments: seq<string>): seq<Event> {
    if fragments == [] then []
    else
      Deltas(b, index, fragments[..|fragments| - 1]) +
      [match b
       case Text(_) => TextDelta(index, fragments[|fragments| - 1])
       case Thinking(_) => ThinkingDelta(index, fragments[|fragments| - 1])
       case ToolUse(_, _, _) => JsonDelta(index, fragments[|fragments| - 1])
       case OtherBlock => OtherDelta(index)]
  }

  function BlockEvents(b: Block, index: nat, fragments: seq<string>): seq<Event> {
    [if b.ToolUse? then ToolStart(index, b.id, b.name) else OtherStart(index)]
    + Deltas(b, index, fragments) + [BlockStop(index)]
  }

  /** Block `i` is chopped into `fragments[i]`. */
  function ContentEvents(blocks: seq<Block>, fragments: seq<seq<string>>): seq<Event>
    requires |fragments| == |blocks|
  {
    if blocks == [] then []
    else
      var n := |blocks| - 1;
      ContentEvents(blocks[..n], fragments[..n]) + BlockEvents(blocks[n], n, fragments[n])
  }

  function MessageEvents(m: Message, fragments: seq<seq<string>>): seq<Event>
    requires |fragments| == |m.content|
  {
    [MessageStart(m.usage.inputTokens, m.usage.cacheCreation, m.usage.cacheRead)]
    + ContentEvents(m.content, fragments)
    + [MessageDelta(m.stopReason, m.usage.outputTokens), MessageStop]
  }

  function Concat(fragments: seq<string>): string {
    if fragments == [] then "" else Concat(fragments[..|fragments| - 1]) + fragments[|fragments| - 1]
  }

  function WithText(b: Block, text: string): Block {
    match b
    case Text(_) => Text(text)
    case Thinking(_) => Thinking(text)
    case ToolUse(id, name, _) => ToolUse(id, name, Some(text))
    case OtherBlock => OtherBlock
  }

  /** The block a client can read off its fragments. */
  function Rendered(b: Block, fragments: seq<string>): Block {
    WithText(b, Concat(fragments))
  }

  function RenderedAll(blocks: seq<Block>, fragments: seq<seq<string>>): seq<Block>
    requires |fragments| == |blocks|
  {
    seq(|blocks|, i requires 0 <= i < |blocks| => Rendered(blocks[i], fragments[i]))
  }

  // --- Runs of the stream ---------------------------------------------------------------------------------

  lemma {:induction false} RunConcat(mode: Mode, s: Session, a: seq<Event>, b: seq<Event>)
    ensures Run(mode, s, a + b) == Run(mode, Run(mode, s, a), b)
    decreases a
  {
    if a == [] {
      assert a + b == b;
    } else {
      assert (a + b)[1..] == a[1..] + b;
      RunConcat(mode, Step(mode, s, a[0]), a[1..], b);
    }
  }

  lemma RunOne(mode: Mode, s: Session, e: Event)
    ensures Run(mode, s, [e]) == Step(mode, s, e)
  {
  }

  /** Events that produce no chunk in any mode. */
  predicate IsNoise(e: Event) {
    e.OtherStart? || e.OtherDelta? || e.BlockStop? || e.MessageStop? || e.Ping? || e.UnknownEvent?
  }

  function WithoutNoise(es: seq<Event>): seq<Event> {
    if es == [] then [] else (if IsNoise(es[0]) then [] else [es[0]]) + WithoutNoise(es[1..])
  }

  /** Pings and the like can come anywhere. */
  lemma {:induction false} NoiseIsIgnored(mode: Mode, s: Session, es: seq<Event>)
    ensures Run(mode, s, WithoutNoise(es)) == Run(mode, s, es)
    decreases es
  {
    if es != [] {
      var rest := WithoutNoise(es[1..]);
      NoiseIsIgnored(mode, Step(mode, s, es[0]), es[1..]);
      if IsNoise(es[0]) {
        assert WithoutNoise(es) == rest;
        assert Step(mode, s, es[0]) == s;
      } else {
        assert ([es[0]] + rest)[1..] == rest;
      }
    }
  }

  /** What the deltas of one block do to a session. */
  function AfterDeltas(mode: Mode, s: Session, b: Block, index: nat, text: string): Session {
    match b
    case Text(_) => s.(client := s.client.(content := s.client.content + text))
    case Thinking(_) =>
      if mode.excludeReasoning then s else s.(client := s.client.(reasoning := s.client.reasoning + text))
    case ToolUse(_, _, _) =>
      if mode.forced.Some? then s.(client := s.client.(content := s.client.content + text))
      else s.(client := s.client.(calls := WithFragments(s.client.calls, index, text)))
    case OtherBlock => s
  }

  lemma Appended(a: string, b: string, c: string)
    ensures a + b + c == a + (b + c)
    ensures a + "" == a
  {
  }

  lemma FragmentsCompose(calls: seq<Entry>, index: nat, a: string, b: string)
    ensures WithFragments(WithFragments(calls, index, a), index, b) == WithFragments(calls, index, a + b)
    ensures WithFragments(calls, index, "") == calls
  {
    forall i | 0 <= i < |calls|
      ensures WithFragment(WithFragment(calls[i], index, a), index, b) == WithFragment(calls[i], index, a + b)
      ensures WithFragment(calls[i], index, "") == calls[i]
    {
      Appended(calls[i].call.arguments, a, b);
    }
  }

  lemma {:induction false} DeltasEffect(mode: Mode, s: Session, b: Block, index: nat, fragments: seq<string>)
    requires index < U32_LIMIT
    ensures Run(mode, s, Deltas(b, index, fragments)) == AfterDeltas(mode, s, b, index, Concat(fragments))
  {
    if fragments == [] {
      FragmentsCompose(s.client.calls, index, "", "");
      Appended(s.client.content, "", "");
      Appended(s.client.reasoning, "", "");
    } else {
      var n := |fragments| - 1;
      var before := Concat(fragments[..n]);
      var all := Deltas(b, index, fragments);
      var e := all[|all| - 1];
      DeltasEffect(mode, s, b, index, fragments[..n]);
      assert all == Deltas(b, index, fragments[..n]) + [e];
      RunConcat(mode, s, Deltas(b, index, fragments[..n]), [e]);
      RunOne(mode, AfterDeltas(mode, s, b, index, before), e);
      OneMoreDelta(mode, s, b, index, before, fragments[n]);
    }
  }

  lemma OneMoreDelta(mode: Mode, s: Session, b: Block, index: nat, before: string, fragment: string)
    requires index < U32_LIMIT
    ensures var e := match b
                     case Text(_) => TextDelta(index, fragment)
                     case Thinking(_) => ThinkingDelta(index, fragment)
                     case ToolUse(_, _, _) => JsonDelta(index, fragment)
                     case OtherBlock => OtherDelta(index);
            Step(mode, AfterDeltas(mode, s, b, index, before), e) == AfterDeltas(mode, s, b, index, before + fragment)
  {
    FragmentsCompose(s.client.calls, index, before, fragment);
    Appended(s.client.content, before, fragment);
    Appended(s.client.reasoning, before, fragment);
    if fragment == "" {
      Appended(before, "", "");
    }
  }

  /** In the stream the mode alone decides whether tool input counts as text. */
  function FoldsAll(mode: Mode): string -> bool {
    (name: string) => mode.forced.Some?
  }

  /** The client has put together the first `n` blocks. */
  ghost predicate Shows(mode: Mode, s: Session, counters: Counters, acc: Acc, n: nat) {
    && s.counters == counters
    && s.client.content == acc.text
    && s.client.reasoning == (if mode.excludeReasoning then "" else acc.reasoning)
    && Calls(s.client.calls) == acc.toolCalls
    && (forall i | 0 <= i < |s.client.calls| :: s.client.calls[i].index < n)
    && s.client.finishReason == None && s.client.usage == None && !s.client.failed
  }

  lemma NewCallGetsFragments(calls: seq<Entry>, n: nat, id: string, name: string, text: string)
    requires forall i | 0 <= i < |calls| :: calls[i].index < n
    ensures WithFragments(calls + [Entry(n, ToolCall(id, name, ""))], n, text)
            == calls + [Entry(n, ToolCall(id, name, text))]
  {
    assert "" + text == text;
  }

  lemma ChangesShow(mode: Mode, s: Session, counters: Counters, acc: Acc, b: Block, n: nat, text: string)
    requires Shows(mode, s, counters, acc, n) && n < U32_LIMIT
    ensures var start := if b.ToolUse? then ToolStart(n, b.id, b.name) else OtherStart(n);
            Shows(mode, AfterDeltas(mode, Step(mode, s, start), b, n, text), counters,
                  Extended(acc, WithText(b, text), FoldsAll(mode)), n + 1)
  {
    if b.ToolUse? && mode.forced.None? {
      NewCallGetsFragments(s.client.calls, n, OrEmpty(b.id), OrEmpty(b.name), text);
      var call := ToolCall(OrEmpty(b.id), OrEmpty(b.name), text);
      assert Calls(s.client.calls + [Entry(n, call)]) == Calls(s.client.calls) + [call];
      assert !FoldsAll(mode)(OrEmpty(b.name));
    } else {
      assert b.ToolUse? ==> FoldsAll(mode)(OrEmpty(b.name));
    }
  }

  lemma BlockShows(mode: Mode, s: Session, counters: Counters, acc: Acc, b: Block, n: nat, fragments: seq<string>)
    requires Shows(mode, s, counters, acc, n) && n < U32_LIMIT
    ensures Shows(mode, Run(mode, s, BlockEvents(b, n, fragments)), counters,
                  Extended(acc, Rendered(b, fragments), FoldsAll(mode)), n + 1)
  {
    var text := Concat(fragments);
    var start := if b.ToolUse? then ToolStart(n, b.id, b.name) else OtherStart(n);
    var s1 := Step(mode, s, start);
    var s2 := AfterDeltas(mode, s1, b, n, text);
    RunConcat(mode, s, [start] + Deltas(b, n, fragments), [BlockStop(n)]);
    RunConcat(mode, s, [start], Deltas(b, n, fragments));
    RunOne(mode, s, start);
    DeltasEffect(mode, s1, b, n, fragments);
    RunOne(mode, s2, BlockStop(n));
    assert Run(mode, s, BlockEvents(b, n, fragments)) == s2;
    ChangesShow(mode, s, counters, acc, b, n, text);
  }

  lemma NothingRendered(blocks: seq<Block>, fragments: seq<seq<string>>)
    requires |fragments| == |blocks| == 0
    ensures RenderedAll(blocks, fragments) == []
  {
  }

  lemma RenderedLast(blocks: seq<Block>, fragments: seq<seq<string>>)
    requires |fragments| == |blocks| > 0
    ensures var n, rendered := |blocks| - 1, RenderedAll(blocks, fragments);
            && |rendered| == n + 1
            && rendered[..n] == RenderedAll(blocks[..n], fragments[..n])
            && rendered[n] == Rendered(blocks[n], fragments[n])
  {
  }

  lemma NothingShows(mode: Mode, s: Session)
    requires s.client == NEW_CLIENT
    ensures Shows(mode, s, s.counters, Acc("", "", []), 0)
  {
    assert Calls([]) == [];
  }

  lemma {:induction false} ContentShows(mode: Mode, s: Session, blocks: seq<Block>, fragments: seq<seq<string>>)
    requires |fragments| == |blocks| <= U32_LIMIT
    requires s.client == NEW_CLIENT
    ensures Shows(mode, Run(mode, s, ContentEvents(blocks, fragments)), s.counters,
                  Folded(RenderedAll(blocks, fragments), FoldsAll(mode)), |blocks|)
  {
    hide Shows, BlockEvents, Extended, RenderedAll, Rendered, Step;
    if blocks == [] {
      NothingShows(mode, s);
      NothingRendered(blocks, fragments);
    } else {
      var n := |blocks| - 1;
      ContentShows(mode, s, blocks[..n], fragments[..n]);
      var before := Run(mode, s, ContentEvents(blocks[..n], fragments[..n]));
      RunConcat(mode, s, ContentEvents(blocks[..n], fragments[..n]), BlockEvents(blocks[n], n, fragments[n]));
      var rendered := RenderedAll(blocks, fragments);
      RenderedLast(blocks, fragments);
      BlockShows(mode, before, s.counters, Folded(rendered[..n], FoldsAll(mode)), blocks[n], n, fragments[n]);
    }
  }

  // --- The two answers ------------------------------------------------------------------------------------

  function MessageResult(mode: Mode, m: Message, fragments: seq<seq<string>>): Result
    requires |fragments| == |m.content|
  {
    var u := m.usage;
    Ok(AnswerOf(mode, Folded(RenderedAll(m.content, fragments), FoldsAll(mode)), FinishReason(mode, m.stopReason),
                Some(StreamUsage(Counters(AsU32(u.inputTokens), AsU32(u.cacheCreation), AsU32(u.cacheRead)),
                                 AsU32(u.outputTokens)))))
  }

  /** A stream is a chopped message with noise anywhere. */
  ghost predicate Streams(es: seq<Event>, m: Message, fragments: seq<seq<string>>)
    requires |fragments| == |m.content|
  {
    WithoutNoise(es) == WithoutNoise(MessageEvents(m, fragments))
  }

  lemma FinalStep(mode: Mode, s: Session, counters: Counters, acc: Acc, n: nat, stopReason: Option<string>, output: nat)
    requires Shows(mode, s, counters, acc, n)
    ensures Assembled(Run(mode, s, [MessageDelta(stopReason, output), MessageStop]).client)
            == Ok(AnswerOf(mode, acc, FinishReason(mode, stopReason), Some(StreamUsage(counters, AsU32(output)))))
  {
    var last := MessageDelta(stopReason, output);
    assert [last, MessageStop] == [last] + [MessageStop];
    RunConcat(mode, s, [last], [MessageStop]);
    RunOne(mode, s, last);
    RunOne(mode, Step(mode, s, last), MessageStop);
    assert |Calls(s.client.calls)| == |s.client.calls|;
  }

  /** What a client gets from a stream depends on nothing but the blocks its fragments add up to. */
  lemma StreamIsRendering(mode: Mode, es: seq<Event>, m: Message, fragments: seq<seq<string>>)
    requires |fragments| == |m.content| <= U32_LIMIT && Streams(es, m, fragments)
    ensures StreamResult(mode, es) == MessageResult(mode, m, fragments)
  {
    var u := m.usage;
    var first := MessageStart(u.inputTokens, u.cacheCreation, u.cacheRead);
    var last := [MessageDelta(m.stopReason, u.outputTokens), MessageStop];
    var content := ContentEvents(m.content, fragments);
    NoiseIsIgnored(mode, NEW_SESSION, es);
    NoiseIsIgnored(mode, NEW_SESSION, MessageEvents(m, fragments));
    RunConcat(mode, NEW_SESSION, [first] + content, last);
    RunConcat(mode, NEW_SESSION, [first], content);
    RunOne(mode, NEW_SESSION, first);
    var started := Step(mode, NEW_SESSION, first);
    ContentShows(mode, started, m.content, fragments);
    FinalStep(mode, Run(mode, started, content), started.counters,
              Folded(RenderedAll(m.content, fragments), FoldsAll(mode)), |m.content|, m.stopReason, u.outputTokens);
  }

  /** The fragments of text and thinking blocks add up to the block. */
  ghost predicate ProseMatches(blocks: seq<Block>, fragments: seq<seq<string>>)
    requires |fragments| == |blocks|
  {
    forall i | 0 <= i < |blocks| && (blocks[i].Text? || blocks[i].Thinking?) ::
      Rendered(blocks[i], fragments[i]) == blocks[i]
  }

  /** The JSON fragments of tool blocks add up to the serialized input. */
  ghost predicate InputsMatch(blocks: seq<Block>, fragments: seq<seq<string>>)
    requires |fragments| == |blocks|
  {
    forall i | 0 <= i < |blocks| && blocks[i].ToolUse? :: Concat(fragments[i]) == InputText(blocks[i])
  }

  /** In forced mode the model calls no other tool. */
  ghost predicate OnlyForcedTool(mode: Mode, blocks: seq<Block>) {
    forall i | 0 <= i < |blocks| && blocks[i].ToolUse? :: mode.forced == Some(OrEmpty(blocks[i].name))
  }

  lemma U32Sums(a: nat, b: nat, c: nat)
    ensures SumU32(a, b, c) == SumU32(a, c, b)
  {
  }

  lemma AsU32IsExact(x: nat)
    requires x < U32_LIMIT
    ensures AsU32(x) == x
  {
  }

  lemma UsagesAgree(u: WireUsage)
    requires CountersFit(u)
    ensures var c := Counters(AsU32(u.inputTokens), AsU32(u.cacheCreation), AsU32(u.cacheRead));
            StreamUsage(c, AsU32(u.outputTokens)) == ChatUsage(u)
  {
    hide SumU32, AsU32;
    U32Sums(u.inputTokens, u.cacheRead, u.cacheCreation);
    AsU32IsExact(u.inputTokens);
    AsU32IsExact(u.outputTokens);
    AsU32IsExact(u.cacheCreation);
    AsU32IsExact(u.cacheRead);
  }

  /** A call of another tool is a tool call for `chat` and never one for the forced stream. */
  lemma {:induction false} OtherToolShows(mode: Mode, blocks: seq<Block>)
    requires mode.forced.Some?
    ensures OnlyForcedTool(mode, blocks) <==> Folded(blocks, IsForcedTool(mode)).toolCalls == []
  {
    if blocks != [] {
      OtherToolShows(mode, blocks[..|blocks| - 1]);
    }
  }

  lemma {:induction false} ForcedStreamHasNoCalls(mode: Mode, blocks: seq<Block>)
    requires mode.forced.Some?
    ensures Folded(blocks, FoldsAll(mode)).toolCalls == []
  {
    if blocks != [] {
      ForcedStreamHasNoCalls(mode, blocks[..|blocks| - 1]);
    }
  }

  /** What the blocks add up to as content; tool inputs are part of it under a forced tool. */
  function ContentOf(blocks: seq<Block>, withInputs: bool): string {
    if blocks == [] then ""
    else
      var b := blocks[|blocks| - 1];
      ContentOf(blocks[..|blocks| - 1], withInputs)
      + match b
        case Text(text) => text
        case ToolUse(_, _, input) => if !withInputs then "" else if input.Some? then input.value else "{}"
        case _ => ""
  }

  function ReasoningOf(blocks: seq<Block>): string {
    if blocks == [] then ""
    else
      var b := blocks[|blocks| - 1];
      ReasoningOf(blocks[..|blocks| - 1]) + if b.Thinking? then b.thinking else ""
  }

  lemma {:induction false} FoldedText(blocks: seq<Block>, folds: string -> bool, withInputs: bool)
    requires forall i | 0 <= i < |blocks| && blocks[i].ToolUse? :: folds(OrEmpty(blocks[i].name)) == withInputs
    ensures Folded(blocks, folds).text == ContentOf(blocks, withInputs)
    ensures Folded(blocks, folds).reasoning == ReasoningOf(blocks)
  {
    if blocks != [] {
      FoldedText(blocks[..|blocks| - 1], folds, withInputs);
    }
  }

  lemma LastInputMatches(blocks: seq<Block>, fragments: seq<seq<string>>)
    requires |fragments| == |blocks| > 0
    ensures var n := |blocks| - 1;
            InputsMatch(blocks, fragments) <==>
            InputsMatch(blocks[..n], fragments[..n])
            && (blocks[n].ToolUse? ==> Concat(fragments[n]) == InputText(blocks[n]))
  {
  }

  lemma NoInputs(blocks: seq<Block>, fragments: seq<seq<string>>)
    requires |fragments| == |blocks| == 0
    ensures InputsMatch(blocks, fragments)
  {
  }

  lemma NoCalls(blocks: seq<Block>, folds: string -> bool)
    requires blocks == []
    ensures Folded(blocks, folds).toolCalls == []
  {
  }

  lemma OneMoreCall(blocks: seq<Block>, folds: string -> bool)
    requires blocks != [] && forall name :: !folds(name)
    ensures var n := |blocks| - 1;
            var before, b := Folded(blocks[..n], folds).toolCalls, blocks[n];
            Folded(blocks, folds).toolCalls
            == if b.ToolUse? then before + [ToolCall(OrEmpty(b.id), OrEmpty(b.name), InputText(b))] else before
  {
  }

  lemma {:induction false} CallsAgreeIff(mode: Mode, blocks: seq<Block>, fragments: seq<seq<string>>)
    requires |fragments| == |blocks| && mode.forced.None?
    ensures var calls := Folded(blocks, IsForcedTool(mode)).toolCalls;
            var streamed := Folded(RenderedAll(blocks, fragments), FoldsAll(mode)).toolCalls;
            |calls| == |streamed| && (calls == streamed <==> InputsMatch(blocks, fragments))
  {
    hide InputsMatch, Folded, Extended;
    var rendered := RenderedAll(blocks, fragments);
    if blocks == [] {
      NoInputs(blocks, fragments);
      NoCalls(blocks, IsForcedTool(mode));
      NoCalls(rendered, FoldsAll(mode));
    } else {
      var n := |blocks| - 1;
      CallsAgreeIff(mode, blocks[..n], fragments[..n]);
      assert rendered[..n] == RenderedAll(blocks[..n], fragments[..n]);
      LastInputMatches(blocks, fragments);
      OneMoreCall(blocks, IsForcedTool(mode));
      OneMoreCall(rendered, FoldsAll(mode));
      if blocks[n].ToolUse? {
        LastDecides(Folded(blocks[..n], IsForcedTool(mode)).toolCalls,
                    Folded(rendered[..n], FoldsAll(mode)).toolCalls,
                    ToolCall(OrEmpty(blocks[n].id), OrEmpty(blocks[n].name), InputText(blocks[n])),
                    ToolCall(OrEmpty(blocks[n].id), OrEmpty(blocks[n].name), Concat(fragments[n])));
      }
    }
  }

  lemma LastDecides<T>(a: seq<T>, b: seq<T>, x: T, y: T)
    requires |a| == |b|
    ensures a + [x] == b + [y] <==> a == b && x == y
  {
    assert (a + [x])[..|a|] == a && (b + [y])[..|b|] == b;
    assert (a + [x])[|a|] == x && (b + [y])[|b|] == y;
  }

  /** The two lists of tool calls, in either mode. */
  lemma ToolCallsAgreeIff(mode: Mode, blocks: seq<Block>, fragments: seq<seq<string>>)
    requires |fragments| == |blocks|
    ensures Folded(RenderedAll(blocks, fragments), FoldsAll(mode)).toolCalls
            == Folded(blocks, IsForcedTool(mode)).toolCalls
            <==> if mode.forced.None? then InputsMatch(blocks, fragments) else OnlyForcedTool(mode, blocks)
  {
    if mode.forced.None? {
      CallsAgreeIff(mode, blocks, fragments);
    } else {
      OtherToolShows(mode, blocks);
      ForcedStreamHasNoCalls(mode, RenderedAll(blocks, fragments));
    }
  }

  /** The fragments add up to what the blocks add up to. */
  predicate AddsUp(mode: Mode, blocks: seq<Block>, fragments: seq<seq<string>>)
    requires |fragments| == |blocks|
  {
    var rendered := RenderedAll(blocks, fragments);
    && ContentOf(rendered, mode.forced.Some?) == ContentOf(blocks, mode.forced.Some?)
    && (mode.excludeReasoning || ReasoningOf(rendered) == ReasoningOf(blocks))
  }

  lemma ProseAgreesIff(mode: Mode, blocks: seq<Block>, fragments: seq<seq<string>>)
    requires |fragments| == |blocks| && (mode.forced.Some? ==> OnlyForcedTool(mode, blocks))
    ensures var chat := Folded(blocks, IsForcedTool(mode));
            var streamed := Folded(RenderedAll(blocks, fragments), FoldsAll(mode));
            AddsUp(mode, blocks, fragments)
            <==> streamed.text == chat.text && (mode.excludeReasoning || streamed.reasoning == chat.reasoning)
  {
    FoldedText(blocks, IsForcedTool(mode), mode.forced.Some?);
    FoldedText(RenderedAll(blocks, fragments), FoldsAll(mode), mode.forced.Some?);
  }

  lemma AnswersAgreeIff(mode: Mode, a: Acc, b: Acc, finishReason: Option<string>, usage: Option<Usage>)
    ensures AnswerOf(mode, a, finishReason, usage) == AnswerOf(mode, b, finishReason, usage)
            <==> a.text == b.text && (mode.excludeReasoning || a.reasoning == b.reasoning) && a.toolCalls == b.toolCalls
  {
  }

  /** Main result: for every message, every sequence of fragments for its blocks and every placement of noise, the
    streaming and the non-streaming client get the same content, reasoning, tool calls, finish reason and usage exactly
    when the counters fit the wire type, the fragments add up to the blocks, and the tool calls come out alike:
    without a forced tool the fragments spell every input, with one the model called no other tool. */
  lemma StreamAgreesWithChatIff(mode: Mode, es: seq<Event>, m: Message, fragments: seq<seq<string>>)
    requires |fragments| == |m.content| <= U32_LIMIT && Streams(es, m, fragments)
    ensures StreamResult(mode, es) == ChatResult(mode, m)
            <==> && CountersFit(m.usage) && AddsUp(mode, m.content, fragments)
                 && if mode.forced.None? then InputsMatch(m.content, fragments) else OnlyForcedTool(mode, m.content)
  {
    hide Folded, RenderedAll, AddsUp, InputsMatch, OnlyForcedTool, AnswerOf, StreamUsage, ChatUsage;
    StreamIsRendering(mode, es, m, fragments);
    if CountersFit(m.usage) {
      UsagesAgree(m.usage);
      AnswersAgreeIff(mode, Folded(RenderedAll(m.content, fragments), FoldsAll(mode)),
                      Folded(m.content, IsForcedTool(mode)), FinishReason(mode, m.stopReason),
                      Some(ChatUsage(m.usage)));
      ToolCallsAgreeIff(mode, m.content, fragments);
      if mode.forced.None? || OnlyForcedTool(mode, m.content) {
        ProseAgreesIff(mode, m.content, fragments);
      }
    }
  }

  // --- Fragments that spell out text and thinking ------------------------------------------------------------

  function ToolUses(blocks: seq<Block>): nat {
    if blocks == [] then 0
    else ToolUses(blocks[..|blocks| - 1]) + if blocks[|blocks| - 1].ToolUse? then 1 else 0
  }

  lemma SameEnd(x: string, y: string, z: string)
    ensures x + z == y + z <==> x == y
    ensures z + x == z + y <==> x == y
  {
    if x + z == y + z {
      assert |x| == |y|;
      assert (x + z)[..|x|] == x && (y + z)[..|y|] == y;
    }
    if z + x == z + y {
      assert (z + x)[|z|..] == x && (z + y)[|z|..] == y;
    }
  }

  lemma {:induction false} ReasoningAddsUp(blocks: seq<Block>, fragments: seq<seq<string>>)
    requires |fragments| == |blocks| && ProseMatches(blocks, fragments)
    ensures ReasoningOf(RenderedAll(blocks, fragments)) == ReasoningOf(blocks)
  {
    if blocks != [] {
      var n := |blocks| - 1;
      RenderedLast(blocks, fragments);
      ReasoningAddsUp(blocks[..n], fragments[..n]);
    }
  }

  /** Matching inputs are enough; when there is nothing else to make up for a missing one, they are needed. */
  lemma {:induction false} ContentAddsUp(blocks: seq<Block>, fragments: seq<seq<string>>, withInputs: bool)
    requires |fragments| == |blocks| && ProseMatches(blocks, fragments)
    ensures var same := ContentOf(RenderedAll(blocks, fragments), withInputs) == ContentOf(blocks, withInputs);
            && (!withInputs || InputsMatch(blocks, fragments) ==> same)
            && (withInputs && ToolUses(blocks) <= 1 ==> (same <==> InputsMatch(blocks, fragments)))
            && (ToolUses(blocks) == 0 ==> same && InputsMatch(blocks, fragments))
  {
    hide InputsMatch, RenderedAll;
    if blocks == [] {
      NoInputs(blocks, fragments);
      NothingRendered(blocks, fragments);
    } else {
      var n := |blocks| - 1;
      var rendered := RenderedAll(blocks, fragments);
      RenderedLast(blocks, fragments);
      LastInputMatches(blocks, fragments);
      ContentAddsUp(blocks[..n], fragments[..n], withInputs);
      var before, renderedBefore := ContentOf(blocks[..n], withInputs), ContentOf(rendered[..n], withInputs);
      if blocks[n].ToolUse? {
        SameEnd(Concat(fragments[n]), InputText(blocks[n]), before);
      } else {
        SameEnd(renderedBefore, before, if blocks[n].Text? then blocks[n].text else "");
      }
    }
  }

  /** When the fragments of text and thinking blocks spell them out, matching inputs are enough for agreement, and
    needed too unless several inputs of a forced tool run together. */
  lemma FragmentsDecide(mode: Mode, es: seq<Event>, m: Message, fragments: seq<seq<string>>)
    requires |fragments| == |m.content| <= U32_LIMIT && Streams(es, m, fragments)
    requires ProseMatches(m.content, fragments)
    ensures var expected := CountersFit(m.usage) && (mode.forced.Some? ==> OnlyForcedTool(mode, m.content));
            var agree := StreamResult(mode, es) == ChatResult(mode, m);
            && (InputsMatch(m.content, fragments) ==> (agree <==> expected))
            && (mode.forced.None? || ToolUses(m.content) <= 1 ==>
                  (agree <==> expected && InputsMatch(m.content, fragments)))
  {
    hide Streams, StreamResult, ChatResult, InputsMatch, OnlyForcedTool, ProseMatches;
    StreamAgreesWithChatIff(mode, es, m, fragments);
    ReasoningAddsUp(m.content, fragments);
    ContentAddsUp(m.content, fragments, mode.forced.Some?);
  }

  /** A forced mode in which the model called another tool all the same: `chat` hands the call over, the stream turns
    its input into content. */
  lemma OtherToolDiffers(mode: Mode, m: Message, fragments: seq<seq<string>>)
    requires mode == Mode(Some("answer"), false)
    requires m == Message([ToolUse(Some("t"), Some("now"), Some("{}"))], Some("tool_use"), WireUsage(1, 1, 0, 0))
    requires fragments == [["{}"]]
    ensures ChatResult(mode, m).Ok? && StreamResult(mode, MessageEvents(m, fragments)).Ok?
    ensures ChatResult(mode, m).answer.toolCalls.Some?
    ensures StreamResult(mode, MessageEvents(m, fragments)).answer.toolCalls.None?
  {
    StreamIsRendering(mode, MessageEvents(m, fragments), m, fragments);
    ForcedStreamHasNoCalls(mode, RenderedAll(m.content, fragments));
    assert m.content[0].ToolUse? && !OnlyForcedTool(mode, m.content);
    OtherToolShows(mode, m.content);
  }

  /** Without a forced tool the fragments decide: the tool calls agree exactly when the JSON fragments of every call
    spell out its serialized input.  A call without arguments that is streamed without fragments does not. */
  lemma StreamedCallsAgreeIff(mode: Mode, es: seq<Event>, m: Message, fragments: seq<seq<string>>)
    requires |fragments| == |m.content| <= U32_LIMIT && Streams(es, m, fragments)
    requires mode.forced.None? && CountersFit(m.usage)
    ensures StreamResult(mode, es).Ok? && ChatResult(mode, m).Ok?
    ensures StreamResult(mode, es).answer.toolCalls == ChatResult(mode, m).answer.toolCalls
            <==> InputsMatch(m.content, fragments)
  {
    StreamIsRendering(mode, es, m, fragments);
    CallsAgreeIff(mode, m.content, fragments);
  }

  lemma EmptyInputDiffers(mode: Mode, m: Message)
    requires mode == Mode(None, false)
    requires m == Message([ToolUse(Some("t"), Some("now"), Some("{}"))], Some("tool_use"), WireUsage(1, 1, 0, 0))
    ensures ChatResult(mode, m).Ok? && StreamResult(mode, MessageEvents(m, [[]])).Ok?
    ensures Some([ToolCall("t", "now", "{}")]) == ChatResult(mode, m).answer.toolCalls
            != StreamResult(mode, MessageEvents(m, [[]])).answer.toolCalls
  {
    var blocks := m.content;
    assert blocks[..0] == [];
    assert Folded([], IsForcedTool(mode)) == Acc("", "", []);
    assert Folded(blocks, IsForcedTool(mode)) == Extended(Acc("", "", []), blocks[0], IsForcedTool(mode));
    assert !IsForcedTool(mode)("now");
    var none: seq<ToolCall> := [];
    assert none + [ToolCall("t", "now", "{}")] == [ToolCall("t", "now", "{}")];
    assert Concat([]) == "" != InputText(blocks[0]);
    assert blocks[0].ToolUse?;
    assert !InputsMatch(blocks, [[]]);
    StreamedCallsAgreeIff(mode, MessageEvents(m, [[]]), m, [[]]);
  }

  /** With a forced tool the same call is content for `chat` and nothing at all for the stream. */
  lemma EmptyForcedInputDiffers(mode: Mode, m: Message)
    requires mode == Mode(Some("now"), false)
    requires m == Message([ToolUse(Some("t"), Some("now"), Some("{}"))], Some("tool_use"), WireUsage(1, 1, 0, 0))
    ensures ChatResult(mode, m).Ok? && StreamResult(mode, MessageEvents(m, [[]])).Ok?
    ensures ChatResult(mode, m).answer.content == Some("{}")
    ensures StreamResult(mode, MessageEvents(m, [[]])).answer.content == None
  {
    var blocks, rendered := m.content, RenderedAll(m.content, [[]]);
    StreamIsRendering(mode, MessageEvents(m, [[]]), m, [[]]);
    FoldedText(blocks, IsForcedTool(mode), true);
    FoldedText(rendered, FoldsAll(mode), true);
    assert blocks[..0] == [] && rendered[..0] == [];
    assert InputText(blocks[0]) == "{}" && InputText(rendered[0]) == Concat([]) == "";
    assert ContentOf(blocks, true) == "" + "{}" == "{}" && ContentOf(rendered, true) == "" + "" == "";
  }

  // --- What the answer says ----------------------------------------------------------------------------------

  /** The calls a client has to answer: those of tools other than the forced one. */
  function CallsOf(mode: Mode, blocks: seq<Block>): seq<ToolCall> {
    if blocks == [] then []
    else
      var before := CallsOf(mode, blocks[..|blocks| - 1]);
      match blocks[|blocks| - 1]
      case ToolUse(id, name, input) =>
        var call := ToolCall(if id.Some? then id.value else "", if name.Some? then name.value else "",
                             if input.Some? then input.value else "{}");
        if mode.forced == Some(call.name) then before else before + [call]
      case _ => before
  }

  lemma {:induction false} FoldedCalls(mode: Mode, blocks: seq<Block>)
    ensures Folded(blocks, IsForcedTool(mode)).toolCalls == CallsOf(mode, blocks)
  {
    if blocks != [] {
      FoldedCalls(mode, blocks[..|blocks| - 1]);
    }
  }

  /** Content, reasoning and tool calls of the whole response are what its blocks add up to; what adds up to nothing is
    absent. */
  lemma ChatAnswers(mode: Mode, m: Message)
    requires CountersFit(m.usage)
    ensures ChatResult(mode, m).Ok?
    ensures var a, calls := ChatResult(mode, m).answer, CallsOf(mode, m.content);
            && (a.toolCalls == if calls == [] then None else Some(calls))
            && (mode.excludeReasoning || ReasoningOf(m.content) == "" ==> a.reasoning == None)
            && (!mode.excludeReasoning && ReasoningOf(m.content) != "" ==> a.reasoning == Some(ReasoningOf(m.content)))
            && (mode.forced.None? || OnlyForcedTool(mode, m.content) ==>
                  var content := ContentOf(m.content, mode.forced.Some?);
                  a.content == if content == "" then None else Some(content))
  {
    FoldedCalls(mode, m.content);
    FoldedReasoning(m.content, IsForcedTool(mode));
    if mode.forced.None? || OnlyForcedTool(mode, m.content) {
      FoldedText(m.content, IsForcedTool(mode), mode.forced.Some?);
    }
  }

  lemma {:induction false} FoldedReasoning(blocks: seq<Block>, folds: string -> bool)
    ensures Folded(blocks, folds).reasoning == ReasoningOf(blocks)
  {
    if blocks != [] {
      FoldedReasoning(blocks[..|blocks| - 1], folds);
    }
  }

  /** A response is refused exactly when one of its counters is no `u32`. */
  lemma ChatFailsIff(mode: Mode, m: Message)
    ensures ChatResult(mode, m).Err?
            <==> m.usage.inputTokens > 4_294_967_295 || m.usage.outputTokens > 4_294_967_295
                 || m.usage.cacheCreation > 4_294_967_295 || m.usage.cacheRead > 4_294_967_295
  {
  }

  lemma {:induction false} FailedIff(mode: Mode, s: Session, es: seq<Event>)
    ensures Run(mode, s, es).client.failed <==> s.client.failed || exists e | e in es :: e.ErrorEvent?
    decreases es
  {
    if es != [] {
      FailedIff(mode, Step(mode, s, es[0]), es[1..]);
      assert es == [es[0]] + es[1..];
    }
  }

  /** A stream fails exactly when the provider sends an error, wherever that comes. */
  lemma StreamFailsIff(mode: Mode, es: seq<Event>)
    ensures StreamResult(mode, es).Err? <==> exists e | e in es :: e.ErrorEvent?
  {
    FailedIff(mode, NEW_SESSION, es);
  }

  /** How the provider's stop reasons are reported. */
  predicate Reports(stopReason: Option<string>, finishReason: Option<string>) {
    && (finishReason == Some("length") <==> stopReason == Some("max_tokens"))
    && (finishReason == Some("tool_calls") <==> stopReason == Some("tool_use"))
    && (finishReason == None <==> stopReason == None)
    && (stopReason.Some? && stopReason != Some("max_tokens") && stopReason != Some("tool_use") ==>
          finishReason == Some("stop"))
  }

  lemma FinishReasonReports(mode: Mode, stopReason: Option<string>)
    ensures if mode.forced.Some? then FinishReason(mode, stopReason) == Some("stop")
            else Reports(stopReason, FinishReason(mode, stopReason))
  {
    assert "stop"[0] == 's' && "length"[0] == 'l' && "tool_calls"[0] == 't';
    assert "max_tokens"[0] == 'm' && "tool_use"[0] == 't' && "end_turn"[0] == 'e' && "stop_sequence"[0] == 's';
  }

  /** Both clients are told that a message was cut off or ended in tool calls exactly when it was; with a forced tool
    it always just stopped. */
  lemma StopReasonsAreReported(mode: Mode, es: seq<Event>, m: Message, fragments: seq<seq<string>>)
    requires |fragments| == |m.content| <= U32_LIMIT && Streams(es, m, fragments)
    ensures StreamResult(mode, es).Ok?
    ensures var streamed := StreamResult(mode, es).answer.finishReason;
            if mode.forced.Some? then streamed == Some("stop") else Reports(m.stopReason, streamed)
    ensures CountersFit(m.usage) ==>
              var whole := ChatResult(mode, m).answer.finishReason;
              if mode.forced.Some? then whole == Some("stop") else Reports(m.stopReason, whole)
  {
    hide Reports, FinishReason;
    StreamIsRendering(mode, es, m, fragments);
    FinishReasonReports(mode, m.stopReason);
  }

  /** Which counter is reported where: the prompt includes both cache counters, and sums wrap at 2^32. */
  predicate Counts(u: WireUsage, usage: Option<Usage>) {
    var prompt := u.inputTokens + u.cacheCreation + u.cacheRead;
    && usage.Some?
    && usage.value.promptTokens == prompt % 4_294_967_296
    && usage.value.completionTokens == u.outputTokens
    && usage.value.totalTokens == (prompt + u.outputTokens) % 4_294_967_296
    && (usage.value.cachedTokens == if u.cacheRead == 0 then None else Some(u.cacheRead))
    && (usage.value.cacheCreationTokens == if u.cacheCreation == 0 then None else Some(u.cacheCreation))
  }

  lemma WrappedSum(a: nat, b: nat)
    ensures AsU32(AsU32(a) + b) == AsU32(a + b) == (a + b) % 4_294_967_296
  {
  }

  lemma ChatUsageCounts(u: WireUsage)
    requires CountersFit(u)
    ensures Counts(u, Some(ChatUsage(u)))
  {
    hide AsU32;
    var cached := u.inputTokens + u.cacheRead;
    WrappedSum(cached, u.cacheCreation);
    WrappedSum(cached + u.cacheCreation, u.outputTokens);
  }

  /** Both clients are told the same, right counts. */
  lemma UsageIsReported(mode: Mode, es: seq<Event>, m: Message, fragments: seq<seq<string>>)
    requires |fragments| == |m.content| <= U32_LIMIT && Streams(es, m, fragments) && CountersFit(m.usage)
    ensures ChatResult(mode, m).Ok? && Counts(m.usage, ChatResult(mode, m).answer.usage)
    ensures StreamResult(mode, es).Ok? && Counts(m.usage, StreamResult(mode, es).answer.usage)
  {
    hide Counts;
    StreamIsRendering(mode, es, m, fragments);
    UsagesAgree(m.usage);
    ChatUsageCounts(m.usage);
  }
}
