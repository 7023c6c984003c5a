/** The assembler of OpenAI chat-completion streams: parsed chunks in, stream events out, and a
    result that the events alone rebuild. */
module OpenaiChat {
  import LogNames
  import opened Common
  import Sse
  import opened StreamTypes
  import Text

  /** A parsed chunk; absent and mistyped JSON fields are `None`. */
  datatype RawUsage = RawUsage(prompt: nat, completion: nat, cached: nat)
  datatype CallDelta = CallDelta(index: nat, id: Option<string>, name: Option<string>, arguments: string)
  datatype Choice = Choice(finishReason: Option<string>, reasoning: Option<string>, content: Option<string>, calls: seq<CallDelta>)
  datatype Chunk = Done | Chunk(usage: Option<RawUsage>, choices: seq<Choice>)

  datatype Chat = Chat(text: string, reasoning: string, raw: string, sawReasoning: bool, slots: seq<Slot>, seqNo: nat,
                       usage: Option<Usage>, finishReason: Option<string>, sawTerminal: bool)

  const START: Chat := Chat("", "", "", false, [], 0, None, None, false)

  datatype Step = Step(chat: Chat, events: seq<StreamEvent>)

  // ---- One chunk, as a function ----

  function TokenUsage(u: RawUsage): Usage {
    Usage(Minus(u.prompt, u.cached), u.completion, u.cached)
  }

  function OnUsage(c: Chat, usage: Option<RawUsage>): Step {
    if usage.None? then Step(c, [])
    else Step(c.(usage := Some(TokenUsage(usage.value)), seqNo := c.seqNo + 1),
              [TextDelta(c.seqNo + 1, "", Some(TokenUsage(usage.value)))])
  }

  function OnFinishReason(c: Chat, reason: Option<string>): Chat {
    if reason.Some? && reason.value != "null" then c.(finishReason := reason) else c
  }

  function OnReasoning(upper: char -> bool, c: Chat, reasoning: Option<string>): Step {
    if reasoning.None? then Step(c, [])
    else if reasoning.value == "" then Step(c.(sawReasoning := true), [])
    else Step(c.(sawReasoning := true, reasoning := AppendReasoning(upper, c.reasoning, reasoning.value),
                 raw := c.raw + reasoning.value, seqNo := c.seqNo + 1),
              [ReasoningDelta(c.seqNo + 1, reasoning.value)])
  }

  function OnContent(c: Chat, content: Option<string>): Step {
    if content.None? || content.value == "" then Step(c, [])
    else Step(c.(text := c.text + content.value, seqNo := c.seqNo + 1), [TextDelta(c.seqNo + 1, content.value, None)])
  }

  function Filled(slot: Slot, call: CallDelta): Slot {
    Slot(Or(call.id, slot.id), Or(call.name, slot.name), slot.arguments + call.arguments)
  }

  function OnCall(c: Chat, call: CallDelta): Step {
    var slots := Grown(c.slots, call.index);
    var slot := Filled(slots[call.index], call);
    Step(c.(slots := slots[call.index := slot], seqNo := c.seqNo + 1),
         [ToolDelta(c.seqNo + 1, call.index % U32_BOUND, slot.id, slot.name, if call.arguments == "" then None else Some(call.arguments))])
  }

  function OnCalls(c: Chat, calls: seq<CallDelta>): Step
    decreases |calls|
  {
    if |calls| == 0 then Step(c, [])
    else
      var rest := OnCalls(OnCall(c, calls[0]).chat, calls[1..]);
      Step(rest.chat, OnCall(c, calls[0]).events + rest.events)
  }

  function OnChoice(upper: char -> bool, c: Chat, choice: Choice): Step {
    var reasoned := OnReasoning(upper, OnFinishReason(c, choice.finishReason), choice.reasoning);
    var spoken := OnContent(reasoned.chat, choice.content);
    var called := OnCalls(spoken.chat, choice.calls);
    Step(called.chat, reasoned.events + spoken.events + called.events)
  }

  function OnChoices(upper: char -> bool, c: Chat, choices: seq<Choice>): Step
    decreases |choices|
  {
    if |choices| == 0 then Step(c, [])
    else
      var first := OnChoice(upper, c, choices[0]);
      var rest := OnChoices(upper, first.chat, choices[1..]);
      Step(rest.chat, first.events + rest.events)
  }

  function OnChunk(upper: char -> bool, c: Chat, chunk: Chunk): Step {
    match chunk
    case Done => Step(c.(sawTerminal := true), [])
    case Chunk(usage, choices) =>
      var counted := OnUsage(c, usage);
      var rest := OnChoices(upper, counted.chat, choices);
      Step(rest.chat, counted.events + rest.events)
  }

  function OnStream(upper: char -> bool, c: Chat, chunks: seq<Chunk>): Step
    decreases |chunks|
  {
    if |chunks| == 0 then Step(c, [])
    else
      var first := OnChunk(upper, c, chunks[0]);
      var rest := OnStream(upper, first.chat, chunks[1..]);
      Step(rest.chat, first.events + rest.events)
  }

  // ---- The events rebuild the state ----

  /** What a consumer of the events has of the text and the reasoning agrees with the assembler, and
      its slots have 32-bit indexes. */
  ghost predicate Agree(upper: char -> bool, c: Chat, v: View) {
    v.text == c.text && c.raw == Concat(v.reasoning) && c.reasoning == Summary(upper, v.reasoning) && |v.slots| <= U32_BOUND
  }

  /** `w` agrees where `v` did, and on the slots too for as long as their indexes fit 32 bits. */
  ghost predicate Follows(upper: char -> bool, c: Chat, v: View, d: Chat, w: View) {
    Agree(upper, d, w) && (v.slots == c.slots && |d.slots| <= U32_BOUND ==> w.slots == d.slots)
  }

  /** The step's events carry the next numbers and bring an agreeing consumer up to date. */
  ghost predicate Faithful(upper: char -> bool, c: Chat, step: Step) {
    && Numbered(step.events, c.seqNo, step.chat.seqNo) && |c.slots| <= |step.chat.slots|
    && forall v | Agree(upper, c, v) :: Follows(upper, c, v, step.chat, ReplayAll(v, step.events))
  }

  lemma Chained(upper: char -> bool, c: Chat, first: Step, second: Step)
    requires Faithful(upper, c, first) && Faithful(upper, first.chat, second)
    ensures Faithful(upper, c, Step(second.chat, first.events + second.events))
  {
    NumberedConcat(first.events, second.events, c.seqNo, first.chat.seqNo, second.chat.seqNo);
    forall v | Agree(upper, c, v)
      ensures Follows(upper, c, v, second.chat, ReplayAll(v, first.events + second.events))
    {
      ReplayConcat(v, first.events, second.events);
      assert Follows(upper, c, v, first.chat, ReplayAll(v, first.events));
    }
  }

  lemma OneEvent(v: View, e: StreamEvent, from: nat)
    ensures ReplayAll(v, [e]) == Replay(v, e)
    ensures !e.Failed? && e.sequence == from + 1 ==> Numbered([e], from, from + 1)
  {
  }

  lemma UsageFaithful(upper: char -> bool, c: Chat, usage: Option<RawUsage>)
    ensures Faithful(upper, c, OnUsage(c, usage))
  {
    var step := OnUsage(c, usage);
    if usage.Some? {
      forall v
        ensures ReplayAll(v, step.events) == v && Numbered(step.events, c.seqNo, c.seqNo + 1)
      {
        OneEvent(v, step.events[0], c.seqNo);
        assert v.text + "" == v.text;
      }
    }
  }

  lemma ReasoningFaithful(upper: char -> bool, c: Chat, reasoning: Option<string>)
    ensures Faithful(upper, c, OnReasoning(upper, c, reasoning))
  {
    var step := OnReasoning(upper, c, reasoning);
    if reasoning.Some? && reasoning.value != "" {
      OneEvent(NOTHING, step.events[0], c.seqNo);
      forall v | Agree(upper, c, v)
        ensures Follows(upper, c, v, step.chat, ReplayAll(v, step.events))
      {
        OneEvent(v, step.events[0], c.seqNo);
        SummarySnoc(upper, v.reasoning, reasoning.value);
      }
    }
  }

  lemma ContentFaithful(upper: char -> bool, c: Chat, content: Option<string>)
    ensures Faithful(upper, c, OnContent(c, content))
  {
    var step := OnContent(c, content);
    if content.Some? && content.value != "" {
      OneEvent(NOTHING, step.events[0], c.seqNo);
      forall v | Agree(upper, c, v)
        ensures Follows(upper, c, v, step.chat, ReplayAll(v, step.events))
      {
        OneEvent(v, step.events[0], c.seqNo);
      }
    }
  }

  lemma CallFaithful(upper: char -> bool, c: Chat, call: CallDelta)
    ensures Faithful(upper, c, OnCall(c, call))
  {
    var step := OnCall(c, call);
    OneEvent(NOTHING, step.events[0], c.seqNo);
    forall v | Agree(upper, c, v)
      ensures Follows(upper, c, v, step.chat, ReplayAll(v, step.events))
    {
      OneEvent(v, step.events[0], c.seqNo);
      GrownLength(v.slots, call.index % U32_BOUND);
      var slots := Grown(c.slots, call.index);
      assert |step.chat.slots| <= U32_BOUND ==> call.index % U32_BOUND == call.index;
      assert slots[call.index].arguments + call.arguments
          == slots[call.index].arguments + (if call.arguments == "" then "" else call.arguments);
    }
  }

  lemma {:induction false} CallsFaithful(upper: char -> bool, c: Chat, calls: seq<CallDelta>)
    ensures Faithful(upper, c, OnCalls(c, calls))
    decreases |calls|
  {
    if |calls| > 0 {
      var first := OnCall(c, calls[0]);
      CallFaithful(upper, c, calls[0]);
      CallsFaithful(upper, first.chat, calls[1..]);
      Chained(upper, c, first, OnCalls(first.chat, calls[1..]));
    }
  }

  lemma ChoiceFaithful(upper: char -> bool, c: Chat, choice: Choice)
    ensures Faithful(upper, c, OnChoice(upper, c, choice))
  {
    var d := OnFinishReason(c, choice.finishReason);
    var reasoned := OnReasoning(upper, d, choice.reasoning);
    var spoken := OnContent(reasoned.chat, choice.content);
    var called := OnCalls(spoken.chat, choice.calls);
    ReasoningFaithful(upper, d, choice.reasoning);
    ContentFaithful(upper, reasoned.chat, choice.content);
    CallsFaithful(upper, spoken.chat, choice.calls);
    Chained(upper, d, reasoned, spoken);
    Chained(upper, d, Step(spoken.chat, reasoned.events + spoken.events), called);
    var step := OnChoice(upper, c, choice);
    assert step == Step(called.chat, (reasoned.events + spoken.events) + called.events);
    forall v | Agree(upper, c, v)
      ensures Follows(upper, c, v, step.chat, ReplayAll(v, step.events))
    {
      assert Agree(upper, d, v);
    }
  }

  lemma {:induction false} ChoicesFaithful(upper: char -> bool, c: Chat, choices: seq<Choice>)
    ensures Faithful(upper, c, OnChoices(upper, c, choices))
    decreases |choices|
  {
    if |choices| > 0 {
      var first := OnChoice(upper, c, choices[0]);
      ChoiceFaithful(upper, c, choices[0]);
      ChoicesFaithful(upper, first.chat, choices[1..]);
      Chained(upper, c, first, OnChoices(upper, first.chat, choices[1..]));
    }
  }

  lemma ChunkFaithful(upper: char -> bool, c: Chat, chunk: Chunk)
    ensures Faithful(upper, c, OnChunk(upper, c, chunk))
  {
    match chunk
    case Done =>
      assert forall v :: Agree(upper, c, v) ==> Agree(upper, c.(sawTerminal := true), ReplayAll(v, []));
    case Chunk(usage, choices) =>
      UsageFaithful(upper, c, usage);
      ChoicesFaithful(upper, OnUsage(c, usage).chat, choices);
      Chained(upper, c, OnUsage(c, usage), OnChoices(upper, OnUsage(c, usage).chat, choices));
  }

  lemma {:induction false} StreamFaithful(upper: char -> bool, c: Chat, chunks: seq<Chunk>)
    ensures Faithful(upper, c, OnStream(upper, c, chunks))
    decreases |chunks|
  {
    if |chunks| > 0 {
      var first := OnChunk(upper, c, chunks[0]);
      ChunkFaithful(upper, c, chunks[0]);
      StreamFaithful(upper, first.chat, chunks[1..]);
      Chained(upper, c, first, OnStream(upper, first.chat, chunks[1..]));
    }
  }

  // ---- What the provider sent ----

  function ChoicesIn(chunk: Chunk): seq<Choice> {
    match chunk
    case Done => []
    case Chunk(_, choices) => choices
  }

  function UsageIn(chunk: Chunk): seq<RawUsage> {
    match chunk
    case Done => []
    case Chunk(usage, _) => Present(usage)
  }

  function ContentIn(choice: Choice): seq<string> {
    Present(choice.content)
  }

  function ReasoningIn(choice: Choice): seq<string> {
    Present(choice.reasoning)
  }

  function FinishIn(choice: Choice): seq<string> {
    if choice.finishReason == Some("null") then [] else Present(choice.finishReason)
  }

  function CallsIn(choice: Choice): seq<CallDelta> {
    choice.calls
  }

  function IdIn(call: CallDelta): seq<string> {
    Present(call.id)
  }

  function NameIn(call: CallDelta): seq<string> {
    Present(call.name)
  }

  function ArgumentsIn(call: CallDelta): seq<string> {
    [call.arguments]
  }

  /** The deltas with one index. */
  function For(calls: seq<CallDelta>, index: nat): seq<CallDelta>
    decreases |calls|
  {
    if |calls| == 0 then [] else (if calls[0].index == index then [calls[0]] else []) + For(calls[1..], index)
  }

  lemma {:induction false} ForConcat(a: seq<CallDelta>, b: seq<CallDelta>, index: nat)
    ensures For(a + b, index) == For(a, index) + For(b, index)
    decreases |a|
  {
    if |a| == 0 {
      assert a + b == b;
    } else {
      assert (a + b)[1..] == a[1..] + b;
      ForConcat(a[1..], b, index);
    }
  }

  /** One more than the greatest index. */
  function Reach(calls: seq<CallDelta>): (r: nat)
    ensures forall call | call in calls :: call.index < r
    ensures r > 0 ==> exists call :: call in calls && call.index == r - 1
    decreases |calls|
  {
    if |calls| == 0 then 0
    else
      assert calls == [calls[0]] + calls[1..];
      Max(calls[0].index + 1, Reach(calls[1..]))
  }

  lemma {:induction false} ReachConcat(a: seq<CallDelta>, b: seq<CallDelta>)
    ensures Reach(a + b) == Max(Reach(a), Reach(b))
    decreases |a|
  {
    if |a| == 0 {
      assert a + b == b;
    } else {
      assert (a + b)[1..] == a[1..] + b;
      ReachConcat(a[1..], b);
    }
  }

  // ---- The slots are what was sent ----

  function SlotAt(slots: seq<Slot>, index: nat): Slot {
    if index < |slots| then slots[index] else EMPTY_SLOT
  }

  /** The slot after the deltas sent for it: the last id and name given, and all arguments. */
  function SlotAfter(slot: Slot, sent: seq<CallDelta>): Slot {
    Slot(Or(LastOf(Collected(sent, IdIn)), slot.id), Or(LastOf(Collected(sent, NameIn)), slot.name),
         slot.arguments + Concat(Collected(sent, ArgumentsIn)))
  }

  /** There are slots up to the greatest index, and each is what was sent for it. */
  ghost predicate SlotsAfter(before: seq<Slot>, calls: seq<CallDelta>, after: seq<Slot>) {
    && |after| == Max(|before|, Reach(calls))
    && forall j: nat :: SlotAt(after, j) == SlotAfter(SlotAt(before, j), For(calls, j))
  }

  lemma SlotAfterNothing(slot: Slot)
    ensures SlotAfter(slot, []) == slot
  {
    assert slot.arguments + "" == slot.arguments;
  }

  lemma SlotAfterThen(slot: Slot, a: seq<CallDelta>, b: seq<CallDelta>)
    ensures SlotAfter(slot, a + b) == SlotAfter(SlotAfter(slot, a), b)
  {
    CollectedConcat(a, b, IdIn);
    CollectedConcat(a, b, NameIn);
    CollectedConcat(a, b, ArgumentsIn);
    LastOfConcat(Collected(a, IdIn), Collected(b, IdIn), slot.id);
    LastOfConcat(Collected(a, NameIn), Collected(b, NameIn), slot.name);
    AppendTwice(slot.arguments, Collected(a, ArgumentsIn), Collected(b, ArgumentsIn));
  }

  lemma SlotAfterOne(slot: Slot, call: CallDelta)
    ensures SlotAfter(slot, [call]) == Filled(slot, call)
  {
    CollectedOne(call, IdIn);
    CollectedOne(call, NameIn);
    CollectedOne(call, ArgumentsIn);
    ConcatOne(call.arguments);
  }

  lemma SlotsThen(before: seq<Slot>, a: seq<CallDelta>, between: seq<Slot>, b: seq<CallDelta>, after: seq<Slot>)
    requires SlotsAfter(before, a, between) && SlotsAfter(between, b, after)
    ensures SlotsAfter(before, a + b, after)
  {
    ReachConcat(a, b);
    forall j: nat
      ensures SlotAt(after, j) == SlotAfter(SlotAt(before, j), For(a + b, j))
    {
      ForConcat(a, b, j);
      SlotAfterThen(SlotAt(before, j), For(a, j), For(b, j));
    }
  }

  lemma {:induction false} GrownSlots(slots: seq<Slot>, index: nat, j: nat)
    ensures SlotAt(Grown(slots, index), j) == SlotAt(slots, j)
    decreases index + 1 - |slots|
  {
    if |slots| <= index {
      GrownSlots(slots + [EMPTY_SLOT], index, j);
    }
  }

  lemma OneCallSlots(c: Chat, call: CallDelta)
    ensures SlotsAfter(c.slots, [call], OnCall(c, call).chat.slots)
  {
    var after := OnCall(c, call).chat.slots;
    GrownLength(c.slots, call.index);
    assert [call][1..] == [];
    forall j: nat
      ensures SlotAt(after, j) == SlotAfter(SlotAt(c.slots, j), For([call], j))
    {
      GrownSlots(c.slots, call.index, j);
      SlotAfterOne(SlotAt(c.slots, j), call);
      SlotAfterNothing(SlotAt(c.slots, j));
    }
  }

  lemma NoCallSlots(slots: seq<Slot>)
    ensures SlotsAfter(slots, [], slots)
  {
    forall j: nat
      ensures SlotAt(slots, j) == SlotAfter(SlotAt(slots, j), For([], j))
    {
      SlotAfterNothing(SlotAt(slots, j));
    }
  }

  // ---- Everything is what was sent ----

  /** From state `c` on, the choices have led to this state and these events. */
  ghost predicate Received(c: Chat, choices: seq<Choice>, step: Step) {
    && step.chat.text == c.text + Concat(Collected(choices, ContentIn))
    && step.chat.raw == c.raw + Concat(Collected(choices, ReasoningIn))
    && step.chat.sawReasoning == (c.sawReasoning || Collected(choices, ReasoningIn) != [])
    && step.chat.finishReason == Or(LastOf(Collected(choices, FinishIn)), c.finishReason)
    && SlotsAfter(c.slots, Collected(choices, CallsIn), step.chat.slots)
    && EventsSay(choices, step.events)
  }

  /** Nothing about usage or the end of the stream. */
  ghost predicate Unreported(c: Chat, step: Step) {
    step.chat.usage == c.usage && step.chat.sawTerminal == c.sawTerminal && Collected(step.events, UsageOf) == []
  }

  /** The events pass on every content and reasoning that is not empty, and one delta per call. */
  ghost predicate EventsSay(choices: seq<Choice>, events: seq<StreamEvent>) {
    && Collected(events, TextOf) == Collected(Collected(choices, ContentIn), NonEmpty)
    && Collected(events, ReasoningOf) == Collected(Collected(choices, ReasoningIn), NonEmpty)
    && Collected(events, DeltaOf) == Collected(Collected(choices, CallsIn), WireDelta)
  }

  /** Index and arguments of a tool delta; a 32-bit index is sent. */
  function DeltaOf(e: StreamEvent): seq<CallDelta> {
    if e.ToolDelta? then [CallDelta(e.index, None, None, if e.arguments.Some? then e.arguments.value else "")] else []
  }

  function WireDelta(call: CallDelta): seq<CallDelta> {
    [CallDelta(call.index % 0x1_0000_0000, None, None, call.arguments)]
  }

  lemma EventsSayThen(a: seq<Choice>, first: seq<StreamEvent>, b: seq<Choice>, second: seq<StreamEvent>)
    requires EventsSay(a, first) && EventsSay(b, second)
    ensures EventsSay(a + b, first + second)
  {
    CollectedConcat(first, second, TextOf);
    CollectedConcat(first, second, ReasoningOf);
    CollectedConcat(first, second, DeltaOf);
    CollectedConcat(a, b, ContentIn);
    CollectedConcat(a, b, ReasoningIn);
    CollectedConcat(a, b, CallsIn);
    CollectedConcat(Collected(a, ContentIn), Collected(b, ContentIn), NonEmpty);
    CollectedConcat(Collected(a, ReasoningIn), Collected(b, ReasoningIn), NonEmpty);
    CollectedConcat(Collected(a, CallsIn), Collected(b, CallsIn), WireDelta);
  }

  lemma ReceivedThen(c: Chat, a: seq<Choice>, first: Step, b: seq<Choice>, second: Step)
    requires Received(c, a, first) && Received(first.chat, b, second)
    ensures Received(c, a + b, Step(second.chat, first.events + second.events))
  {
    CollectedConcat(a, b, ContentIn);
    CollectedConcat(a, b, ReasoningIn);
    CollectedConcat(a, b, FinishIn);
    CollectedConcat(a, b, CallsIn);
    AppendTwice(c.text, Collected(a, ContentIn), Collected(b, ContentIn));
    AppendTwice(c.raw, Collected(a, ReasoningIn), Collected(b, ReasoningIn));
    LastOfConcat(Collected(a, FinishIn), Collected(b, FinishIn), c.finishReason);
    SlotsThen(c.slots, Collected(a, CallsIn), first.chat.slots, Collected(b, CallsIn), second.chat.slots);
    EventsSayThen(a, first.events, b, second.events);
  }

  /** Tool-call deltas change the slots and nothing else, with one event each. */
  ghost predicate Called(c: Chat, calls: seq<CallDelta>, step: Step) {
    && step.chat == c.(slots := step.chat.slots, seqNo := step.chat.seqNo)
    && SlotsAfter(c.slots, calls, step.chat.slots)
    && Collected(step.events, DeltaOf) == Collected(calls, WireDelta)
    && Collected(step.events, TextOf) == [] && Collected(step.events, ReasoningOf) == [] && Collected(step.events, UsageOf) == []
  }

  lemma OneCalled(c: Chat, call: CallDelta)
    ensures Called(c, [call], OnCall(c, call))
  {
    OneCallSlots(c, call);
    var event := OnCall(c, call).events[0];
    CollectedOne(call, WireDelta);
    CollectedOne(event, DeltaOf);
    CollectedOne(event, TextOf);
    CollectedOne(event, ReasoningOf);
    CollectedOne(event, UsageOf);
  }

  lemma CalledThen(c: Chat, a: seq<CallDelta>, first: Step, b: seq<CallDelta>, second: Step)
    requires Called(c, a, first) && Called(first.chat, b, second)
    ensures Called(c, a + b, Step(second.chat, first.events + second.events))
  {
    SlotsThen(c.slots, a, first.chat.slots, b, second.chat.slots);
    CollectedConcat(a, b, WireDelta);
    CollectedConcat(first.events, second.events, DeltaOf);
    CollectedConcat(first.events, second.events, TextOf);
    CollectedConcat(first.events, second.events, ReasoningOf);
    CollectedConcat(first.events, second.events, UsageOf);
  }

  lemma {:induction false} AllCalled(c: Chat, calls: seq<CallDelta>)
    ensures Called(c, calls, OnCalls(c, calls))
    decreases |calls|
  {
    if |calls| == 0 {
      NoCallSlots(c.slots);
    } else {
      var first := OnCall(c, calls[0]);
      OneCalled(c, calls[0]);
      AllCalled(first.chat, calls[1..]);
      CalledThen(c, [calls[0]], first, calls[1..], OnCalls(first.chat, calls[1..]));
      HeadAndTail(calls);
    }
  }

  /** What the reasoning and the content of a choice add. */
  lemma ReasoningReceived(upper: char -> bool, c: Chat, reasoning: Option<string>)
    ensures var s := OnReasoning(upper, c, reasoning);
            && s.chat == c.(reasoning := s.chat.reasoning, raw := c.raw + Concat(Present(reasoning)),
                            sawReasoning := c.sawReasoning || reasoning.Some?, seqNo := s.chat.seqNo)
            && Collected(s.events, ReasoningOf) == Collected(Present(reasoning), NonEmpty)
            && Collected(s.events, TextOf) == [] && Collected(s.events, DeltaOf) == [] && Collected(s.events, UsageOf) == []
  {
    var s := OnReasoning(upper, c, reasoning);
    if reasoning.Some? {
      ConcatOne(reasoning.value);
      CollectedOne(reasoning.value, NonEmpty);
      if reasoning.value != "" {
        CollectedOne(s.events[0], ReasoningOf);
        CollectedOne(s.events[0], TextOf);
        CollectedOne(s.events[0], DeltaOf);
        CollectedOne(s.events[0], UsageOf);
      }
    }
  }

  lemma ContentReceived(c: Chat, content: Option<string>)
    ensures var s := OnContent(c, content);
            && s.chat == c.(text := c.text + Concat(Present(content)), seqNo := s.chat.seqNo)
            && Collected(s.events, TextOf) == Collected(Present(content), NonEmpty)
            && Collected(s.events, ReasoningOf) == [] && Collected(s.events, DeltaOf) == [] && Collected(s.events, UsageOf) == []
  {
    var s := OnContent(c, content);
    if content.Some? {
      ConcatOne(content.value);
      CollectedOne(content.value, NonEmpty);
      if content.value != "" {
        CollectedOne(s.events[0], ReasoningOf);
        CollectedOne(s.events[0], TextOf);
        CollectedOne(s.events[0], DeltaOf);
        CollectedOne(s.events[0], UsageOf);
      }
    }
  }

  lemma Collected3<T>(a: seq<StreamEvent>, b: seq<StreamEvent>, c: seq<StreamEvent>, of: StreamEvent -> seq<T>)
    ensures Collected(a + b + c, of) == Collected(a, of) + Collected(b, of) + Collected(c, of)
  {
    CollectedConcat(a + b, c, of);
    CollectedConcat(a, b, of);
  }

  lemma ChoiceEvents(choice: Choice, reasoned: seq<StreamEvent>, spoken: seq<StreamEvent>, called: seq<StreamEvent>)
    requires Collected(reasoned, ReasoningOf) == Collected(Present(choice.reasoning), NonEmpty)
    requires Collected(reasoned, TextOf) == [] && Collected(reasoned, DeltaOf) == []
    requires Collected(spoken, TextOf) == Collected(Present(choice.content), NonEmpty)
    requires Collected(spoken, ReasoningOf) == [] && Collected(spoken, DeltaOf) == []
    requires Collected(called, DeltaOf) == Collected(choice.calls, WireDelta)
    requires Collected(called, TextOf) == [] && Collected(called, ReasoningOf) == []
    ensures EventsSay([choice], reasoned + spoken + called)
  {
    Collected3(reasoned, spoken, called, TextOf);
    Collected3(reasoned, spoken, called, ReasoningOf);
    Collected3(reasoned, spoken, called, DeltaOf);
    CollectedOne(choice, ContentIn);
    CollectedOne(choice, ReasoningIn);
    CollectedOne(choice, CallsIn);
  }

  lemma ChoiceState(upper: char -> bool, c: Chat, choice: Choice)
    ensures var d := OnChoice(upper, c, choice).chat;
            && d.text == c.text + Concat(Present(choice.content)) && d.raw == c.raw + Concat(Present(choice.reasoning))
            && d.sawReasoning == (c.sawReasoning || choice.reasoning.Some?)
            && d.finishReason == Or(LastOf(FinishIn(choice)), c.finishReason)
            && SlotsAfter(c.slots, choice.calls, d.slots) && d.usage == c.usage && d.sawTerminal == c.sawTerminal
  {
    var d := OnFinishReason(c, choice.finishReason);
    var reasoned := OnReasoning(upper, d, choice.reasoning);
    var spoken := OnContent(reasoned.chat, choice.content);
    ReasoningReceived(upper, d, choice.reasoning);
    ContentReceived(reasoned.chat, choice.content);
    AllCalled(spoken.chat, choice.calls);
  }

  lemma ChoiceSays(upper: char -> bool, c: Chat, choice: Choice)
    ensures EventsSay([choice], OnChoice(upper, c, choice).events) && Collected(OnChoice(upper, c, choice).events, UsageOf) == []
  {
    var d := OnFinishReason(c, choice.finishReason);
    var reasoned := OnReasoning(upper, d, choice.reasoning);
    var spoken := OnContent(reasoned.chat, choice.content);
    var called := OnCalls(spoken.chat, choice.calls);
    ReasoningReceived(upper, d, choice.reasoning);
    ContentReceived(reasoned.chat, choice.content);
    AllCalled(spoken.chat, choice.calls);
    ChoiceEvents(choice, reasoned.events, spoken.events, called.events);
    Collected3(reasoned.events, spoken.events, called.events, UsageOf);
  }

  lemma ChoiceReceived(upper: char -> bool, c: Chat, choice: Choice)
    ensures Received(c, [choice], OnChoice(upper, c, choice)) && Unreported(c, OnChoice(upper, c, choice))
  {
    ChoiceState(upper, c, choice);
    ChoiceSays(upper, c, choice);
    CollectedOne(choice, ContentIn);
    CollectedOne(choice, ReasoningIn);
    CollectedOne(choice, FinishIn);
    CollectedOne(choice, CallsIn);
  }

  lemma NothingReceived(c: Chat)
    ensures Received(c, [], Step(c, []))
  {
    NoCallSlots(c.slots);
    assert c.text + "" == c.text && c.raw + "" == c.raw;
  }

  lemma {:induction false} ChoicesReceived(upper: char -> bool, c: Chat, choices: seq<Choice>)
    ensures Received(c, choices, OnChoices(upper, c, choices)) && Unreported(c, OnChoices(upper, c, choices))
    decreases |choices|
  {
    if |choices| == 0 {
      NothingReceived(c);
    } else {
      var first := OnChoice(upper, c, choices[0]);
      var rest := OnChoices(upper, first.chat, choices[1..]);
      ChoiceReceived(upper, c, choices[0]);
      ChoicesReceived(upper, first.chat, choices[1..]);
      ReceivedThen(c, [choices[0]], first, choices[1..], rest);
      CollectedConcat(first.events, rest.events, UsageOf);
      HeadAndTail(choices);
    }
  }

  /** Cached prompt tokens are not counted as input. */
  function Tokens(u: RawUsage): seq<Usage> {
    [Usage(if u.prompt < u.cached then 0 else u.prompt - u.cached, u.completion, u.cached)]
  }

  /** The usage reports are passed on, the last one is kept, and so is whether the end was seen. */
  ghost predicate Reported(c: Chat, chunks: seq<Chunk>, step: Step) {
    && step.chat.usage == Or(LastOf(Collected(Collected(chunks, UsageIn), Tokens)), c.usage)
    && Collected(step.events, UsageOf) == Collected(Collected(chunks, UsageIn), Tokens)
    && step.chat.sawTerminal == (c.sawTerminal || Done in chunks)
  }

  lemma ReportedThen(c: Chat, a: seq<Chunk>, first: Step, b: seq<Chunk>, second: Step)
    requires Reported(c, a, first) && Reported(first.chat, b, second)
    ensures Reported(c, a + b, Step(second.chat, first.events + second.events))
  {
    CollectedConcat(a, b, UsageIn);
    CollectedConcat(Collected(a, UsageIn), Collected(b, UsageIn), Tokens);
    CollectedConcat(first.events, second.events, UsageOf);
    LastOfConcat(Collected(Collected(a, UsageIn), Tokens), Collected(Collected(b, UsageIn), Tokens), c.usage);
  }

  lemma UsageReported(c: Chat, usage: Option<RawUsage>)
    ensures var s := OnUsage(c, usage);
            && Received(c, [], s) && s.chat.sawTerminal == c.sawTerminal
            && s.chat.usage == Or(LastOf(Collected(Present(usage), Tokens)), c.usage)
            && Collected(s.events, UsageOf) == Collected(Present(usage), Tokens)
  {
    NothingReceived(c);
    if usage.Some? {
      var event := OnUsage(c, usage).events[0];
      CollectedOne(usage.value, Tokens);
      CollectedOne(event, UsageOf);
      CollectedOne(event, TextOf);
      CollectedOne(event, ReasoningOf);
      CollectedOne(event, DeltaOf);
    }
  }

  lemma ChunkReceived(upper: char -> bool, c: Chat, chunk: Chunk)
    ensures Received(c, ChoicesIn(chunk), OnChunk(upper, c, chunk)) && Reported(c, [chunk], OnChunk(upper, c, chunk))
  {
    CollectedOne(chunk, UsageIn);
    NothingReceived(c);
    match chunk
    case Done =>
    case Chunk(usage, choices) =>
      var counted := OnUsage(c, usage);
      var rest := OnChoices(upper, counted.chat, choices);
      UsageReported(c, usage);
      ChoicesReceived(upper, counted.chat, choices);
      ReceivedThen(c, [], counted, choices, rest);
      assert [] + choices == choices;
      CollectedConcat(counted.events, rest.events, UsageOf);
  }

  /** Whatever the provider streams, the state and the events are exactly what it sent: text and reasoning in order, the
      last finish reason and usage, and every slot's last id and name with all its arguments. */
  lemma {:induction false} StreamReceived(upper: char -> bool, c: Chat, chunks: seq<Chunk>)
    ensures var step := OnStream(upper, c, chunks);
            Received(c, Collected(chunks, ChoicesIn), step) && Reported(c, chunks, step)
    decreases |chunks|
  {
    if |chunks| == 0 {
      NothingReceived(c);
    } else {
      var first := OnChunk(upper, c, chunks[0]);
      var rest := OnStream(upper, first.chat, chunks[1..]);
      ChunkReceived(upper, c, chunks[0]);
      StreamReceived(upper, first.chat, chunks[1..]);
      ReceivedThen(c, ChoicesIn(chunks[0]), first, Collected(chunks[1..], ChoicesIn), rest);
      ReportedThen(c, [chunks[0]], first, chunks[1..], rest);
      HeadAndTail(chunks);
    }
  }

  // ---- The result ----

  function CallAt(names: map<string, string>, slot: Slot, i: nat): ToolCall
    requires slot.name.Some?
  {
    ToolCall(if slot.id.Some? then slot.id.value else "call_" + LogNames.Decimal(i), Renamed(names, slot.name.value),
             OrEmptyObject(slot.arguments))
  }

  /** Every slot that has a name, in order. */
  function CallsOf(names: map<string, string>, slots: seq<Slot>, upTo: nat): seq<ToolCall>
    requires upTo <= |slots|
  {
    if upTo == 0 then []
    else
      var i, slot := upTo - 1, slots[upTo - 1];
      CallsOf(names, slots, i) +
      (if slot.name.None? then [] else [CallAt(names, slot, i)])
  }

  function Finished(names: map<string, string>, c: Chat): Outcome {
    if !c.sawTerminal then Truncated
    else
      Completed(if c.usage.Some? then c.usage.value else NO_USAGE, c.finishReason, CallsOf(names, c.slots, |c.slots|),
                c.text, c.reasoning, if c.sawReasoning then Some(c.raw) else None)
  }

  /** Whatever the provider streams: the events are numbered 1 to n, and replaying them from
      nothing gives the completed text, the verbatim reasoning, and the display form, which only
      adds line breaks between reasoning deltas. It gives the tool calls with their full arguments
      too if and only if the indexes of all slots fit 32 bits. */
  lemma DeltasReplayToResult(upper: char -> bool, names: map<string, string>, chunks: seq<Chunk>)
    ensures var step := OnStream(upper, START, chunks);
            var view, outcome := ReplayAll(NOTHING, step.events), Finished(names, step.chat);
            && Numbered(step.events, 0, step.chat.seqNo)
            && (view.slots == step.chat.slots <==> |step.chat.slots| <= U32_BOUND)
            && (outcome.Completed? ==>
                  && outcome.text == view.text
                  && (view.slots == step.chat.slots ==> outcome.toolCalls == CallsOf(names, view.slots, |view.slots|))
                  && outcome.reasoning == Summary(upper, view.reasoning)
                  && (outcome.reasoningContent.Some? ==> outcome.reasoningContent.value == Concat(view.reasoning)))
  {
    StreamFaithful(upper, START, chunks);
    assert Agree(upper, START, NOTHING);
  }

  /** `call` is what was sent for index `j`: its last id and name, and all its arguments. */
  ghost predicate Answers(names: map<string, string>, calls: seq<CallDelta>, j: nat, call: ToolCall) {
    var ids, wires := Collected(For(calls, j), IdIn), Collected(For(calls, j), NameIn);
    var arguments := Concat(Collected(For(calls, j), ArgumentsIn));
    && |wires| > 0
    && call.id == (if |ids| > 0 then ids[|ids| - 1] else "call_" + LogNames.Decimal(j))
    && call.name == (var wire := wires[|wires| - 1]; if wire in names then names[wire] else wire)
    && call.arguments == (if arguments == "" then "{}" else arguments)
  }

  /** The calls listed are those of the indexes `at`, in order: the indexes below `upTo` that a name was sent for. */
  ghost predicate Lists(names: map<string, string>, calls: seq<CallDelta>, upTo: nat, at: seq<nat>, listed: seq<ToolCall>) {
    && |at| == |listed| && (forall i, k | 0 <= i < k < |at| :: at[i] < at[k])
    && (forall j: nat :: j in at <==> j < upTo && Collected(For(calls, j), NameIn) != [])
    && forall k | 0 <= k < |at| :: Answers(names, calls, at[k], listed[k])
  }

  lemma SlotIsSent(calls: seq<CallDelta>, slots: seq<Slot>, j: nat)
    requires SlotsAfter([], calls, slots)
    ensures SlotAt(slots, j) == Slot(LastOf(Collected(For(calls, j), IdIn)), LastOf(Collected(For(calls, j), NameIn)),
                                     Concat(Collected(For(calls, j), ArgumentsIn)))
    ensures j >= |slots| ==> Collected(For(calls, j), NameIn) == []
  {
    assert SlotAt(slots, j) == SlotAfter(SlotAt([], j), For(calls, j));
    assert "" + Concat(Collected(For(calls, j), ArgumentsIn)) == Concat(Collected(For(calls, j), ArgumentsIn));
  }

  lemma ListsMore(names: map<string, string>, calls: seq<CallDelta>, j: nat, at: seq<nat>, listed: seq<ToolCall>, call: ToolCall)
    requires Lists(names, calls, j, at, listed) && Answers(names, calls, j, call)
    ensures Lists(names, calls, j + 1, at + [j], listed + [call])
  {
    forall i | 0 <= i < |at|
      ensures at[i] < j
    {
      assert at[i] in at;
    }
    forall i: nat
      ensures i in at + [j] <==> i < j + 1 && Collected(For(calls, i), NameIn) != []
    {
      assert i in at <==> i < j && Collected(For(calls, i), NameIn) != [];
    }
  }

  lemma ListsNoMore(names: map<string, string>, calls: seq<CallDelta>, j: nat, at: seq<nat>, listed: seq<ToolCall>)
    requires Lists(names, calls, j, at, listed) && Collected(For(calls, j), NameIn) == []
    ensures Lists(names, calls, j + 1, at, listed)
  {
  }

  lemma NamedSlotAnswers(names: map<string, string>, calls: seq<CallDelta>, slots: seq<Slot>, j: nat)
    requires SlotsAfter([], calls, slots) && j < |slots| && slots[j].name.Some?
    ensures Answers(names, calls, j, CallAt(names, slots[j], j))
  {
    SlotIsSent(calls, slots, j);
  }

  /** One slot more. */
  lemma SlotListed(names: map<string, string>, calls: seq<CallDelta>, slots: seq<Slot>, j: nat, at: seq<nat>,
                   listed: seq<ToolCall>)
    requires SlotsAfter([], calls, slots) && j < |slots| && Lists(names, calls, j, at, listed)
    ensures if slots[j].name.Some? then Lists(names, calls, j + 1, at + [j], listed + [CallAt(names, slots[j], j)])
            else Lists(names, calls, j + 1, at, listed)
  {
    if slots[j].name.Some? {
      NamedSlotAnswers(names, calls, slots, j);
      ListsMore(names, calls, j, at, listed, CallAt(names, slots[j], j));
    } else {
      SlotIsSent(calls, slots, j);
      ListsNoMore(names, calls, j, at, listed);
    }
  }

  lemma CallsOfNext(names: map<string, string>, slots: seq<Slot>, j: nat)
    requires j < |slots|
    ensures CallsOf(names, slots, j + 1)
         == if slots[j].name.Some? then CallsOf(names, slots, j) + [CallAt(names, slots[j], j)] else CallsOf(names, slots, j)
  {
  }

  lemma {:induction false} CallsListed(names: map<string, string>, calls: seq<CallDelta>, slots: seq<Slot>, upTo: nat)
    returns (at: seq<nat>)
    requires SlotsAfter([], calls, slots) && upTo <= |slots|
    ensures Lists(names, calls, upTo, at, CallsOf(names, slots, upTo))
    decreases upTo
  {
    if upTo == 0 {
      at := [];
    } else {
      var j := upTo - 1;
      var before := CallsListed(names, calls, slots, j);
      SlotListed(names, calls, slots, j, before, CallsOf(names, slots, j));
      CallsOfNext(names, slots, j);
      at := if slots[j].name.Some? then before + [j] else before;
    }
  }

  /** The text of a completed result is what was sent. */
  ghost predicate SaysWhatWasSent(upper: char -> bool, choices: seq<Choice>, outcome: Outcome)
    requires outcome.Completed?
  {
    && outcome.text == Concat(Collected(choices, ContentIn))
    && (outcome.reasoningContent.Some? <==> Collected(choices, ReasoningIn) != [])
    && (outcome.reasoningContent.Some? ==> outcome.reasoningContent.value == Concat(Collected(choices, ReasoningIn)))
    && outcome.reasoning == Summary(upper, Collected(Collected(choices, ReasoningIn), NonEmpty))
    && outcome.stopReason == LastOf(Collected(choices, FinishIn))
  }

  lemma DisplayIsOfDeltas(upper: char -> bool, choices: seq<Choice>, step: Step)
    requires Faithful(upper, START, step) && EventsSay(choices, step.events)
    ensures step.chat.reasoning == Summary(upper, Collected(Collected(choices, ReasoningIn), NonEmpty))
  {
    assert Agree(upper, START, NOTHING);
    ReasoningReplays(NOTHING, step.events);
    assert [] + Collected(step.events, ReasoningOf) == Collected(step.events, ReasoningOf);
  }

  lemma TextIsWhatWasSent(upper: char -> bool, names: map<string, string>, chunks: seq<Chunk>)
    ensures var outcome := Finished(names, OnStream(upper, START, chunks).chat);
            && (outcome.Completed? <==> Done in chunks)
            && (outcome.Completed? ==> SaysWhatWasSent(upper, Collected(chunks, ChoicesIn), outcome))
  {
    var choices := Collected(chunks, ChoicesIn);
    StreamReceived(upper, START, chunks);
    StreamFaithful(upper, START, chunks);
    DisplayIsOfDeltas(upper, choices, OnStream(upper, START, chunks));
    assert "" + Concat(Collected(choices, ContentIn)) == Concat(Collected(choices, ContentIn));
    assert "" + Concat(Collected(choices, ReasoningIn)) == Concat(Collected(choices, ReasoningIn));
  }

  /** The result is what the provider sent. It is completed if and only if the end was sent. Then its text and its
      verbatim reasoning are all content and all reasoning in order, the display form is that of the reasoning deltas
      that are not empty, usage and stop reason are the last ones, and the tool calls are those that a name was sent
      for, in the order of their indexes. */
  lemma ResultIsWhatWasSent(upper: char -> bool, names: map<string, string>, chunks: seq<Chunk>) returns (at: seq<nat>)
    ensures var outcome, choices := Finished(names, OnStream(upper, START, chunks).chat), Collected(chunks, ChoicesIn);
            var calls := Collected(choices, CallsIn);
            && (outcome.Completed? <==> Done in chunks)
            && (outcome.Completed? ==>
                  && SaysWhatWasSent(upper, choices, outcome)
                  && UsageIsLast(Collected(chunks, UsageIn), outcome.usage)
                  && Lists(names, calls, Reach(calls), at, outcome.toolCalls))
  {
    var chat, calls := OnStream(upper, START, chunks).chat, Collected(Collected(chunks, ChoicesIn), CallsIn);
    StreamReceived(upper, START, chunks);
    at := CallsListed(names, calls, chat.slots, |chat.slots|);
    TextIsWhatWasSent(upper, names, chunks);
    LastTokens(Collected(chunks, UsageIn));
  }

  /** The last report, with the cached tokens taken from the input, or nothing. */
  predicate UsageIsLast(reports: seq<RawUsage>, usage: Usage) {
    if |reports| == 0 then usage == Usage(0, 0, 0)
    else
      var last := reports[|reports| - 1];
      usage.output == last.completion && usage.cache == last.cached
      && usage.input == if last.prompt < last.cached then 0 else last.prompt - last.cached
  }

  lemma {:induction false} LastTokens(reports: seq<RawUsage>)
    ensures |Collected(reports, Tokens)| == |reports|
    ensures |reports| > 0 ==> UsageIsLast(reports, Collected(reports, Tokens)[|reports| - 1])
    decreases |reports|
  {
    if |reports| > 0 {
      LastTokens(reports[1..]);
    }
  }

  // ---- Behind the parser ----

  /** Ingest one frame; `parse` stands for JSON parsing. */
  function OnFrame(upper: char -> bool, parse: Sse.Frame -> Chunk, s: Step, frame: Sse.Frame): Step {
    var next := OnChunk(upper, s.chat, parse(frame));
    Step(next.chat, s.events + next.events)
  }

  /** From bytes to events: however the response body is cut into chunks, the events and the result
      are the same. */
  lemma EventsDependOnBytes(upper: char -> bool, decode: Text.Bytes -> string, parse: Sse.Frame -> Chunk,
                            one: seq<Text.Bytes>, other: seq<Text.Bytes>)
    requires Text.Flatten(one) == Text.Flatten(other)
    ensures var ingest := (s, frame) => OnFrame(upper, parse, s, frame);
            Sse.Run(decode, ingest, Sse.START, Step(START, []), one) == Sse.Run(decode, ingest, Sse.START, Step(START, []), other)
  {
    Sse.PipelineDependsOnBytes(decode, (s, frame) => OnFrame(upper, parse, s, frame), Step(START, []), one, other);
  }

  // ---- The assembler itself ----

  class OpenaiChatAssembler {
    const upper: char -> bool
    const toolNames: map<string, string>
    var text: string
    var reasoning: string
    var rawReasoning: string
    var sawReasoningContent: bool
    var toolArgs: seq<Slot>
    var seqNo: nat
    var usage: Option<Usage>
    var finishReason: Option<string>
    var sawTerminal: bool

    function Now(): Chat
      reads this
    {
      Chat(text, reasoning, rawReasoning, sawReasoningContent, toolArgs, seqNo, usage, finishReason, sawTerminal)
    }

    constructor (upper: char -> bool, toolNames: map<string, string>)
      ensures Now() == START && this.upper == upper && this.toolNames == toolNames
    {
      this.upper, this.toolNames := upper, toolNames;
      text, reasoning, rawReasoning, sawReasoningContent, toolArgs, seqNo := "", "", "", false, [], 0;
      usage, finishReason, sawTerminal := None, None, false;
    }

    method IngestData(chunk: Chunk) returns (out: seq<StreamEvent>)
      modifies this
      ensures Step(Now(), out) == OnChunk(upper, old(Now()), chunk)
    {
      out := [];
      if chunk.Done? {
        sawTerminal := true;
        return;
      }
      if chunk.usage.Some? {
        var u := chunk.usage.value;
        var counted := Usage(Minus(u.prompt, u.cached), u.completion, u.cached);
        usage := Some(counted);
        seqNo := seqNo + 1;
        out := [TextDelta(seqNo, "", Some(counted))];
      }
      ghost var counted := OnUsage(old(Now()), chunk.usage);
      ghost var target := OnChoices(upper, counted.chat, chunk.choices);
      for k := 0 to |chunk.choices|
        invariant var rest := OnChoices(upper, Now(), chunk.choices[k..]);
                  Step(target.chat, counted.events + target.events) == Step(rest.chat, out + rest.events)
      {
        ghost var choices := chunk.choices[k..];
        assert choices[0] == chunk.choices[k] && choices[1..] == chunk.choices[k + 1..];
        ghost var before := out;
        var emitted := IngestChoice(chunk.choices[k]);
        out := out + emitted;
        ghost var rest := OnChoices(upper, Now(), choices[1..]);
        assert (before + emitted) + rest.events == before + (emitted + rest.events);
      }
      assert chunk.choices[|chunk.choices|..] == [];
      assert out + [] == out;
    }

    method IngestChoice(choice: Choice) returns (out: seq<StreamEvent>)
      modifies this
      ensures Step(Now(), out) == OnChoice(upper, old(Now()), choice)
    {
      if choice.finishReason.Some? && choice.finishReason.value != "null" {
        finishReason := choice.finishReason;
      }
      var reasoned := IngestReasoning(choice.reasoning);
      var spoken := IngestContent(choice.content);
      var called := IngestCalls(choice.calls);
      out := reasoned + spoken + called;
    }

    method IngestReasoning(delta: Option<string>) returns (out: seq<StreamEvent>)
      modifies this`reasoning, this`rawReasoning, this`sawReasoningContent, this`seqNo
      ensures Step(Now(), out) == OnReasoning(upper, old(Now()), delta)
      ensures rawReasoning == old(rawReasoning) + (if delta.Some? then delta.value else "")
      ensures sawReasoningContent == (old(sawReasoningContent) || delta.Some?)
      ensures out == if delta.None? || delta.value == "" then [] else [ReasoningDelta(old(seqNo) + 1, delta.value)]
    {
      out := [];
      if delta.Some? {
        sawReasoningContent := true;
        if delta.value != "" {
          reasoning := AppendReasoningSummary(upper, reasoning, delta.value);
          rawReasoning := rawReasoning + delta.value;
          seqNo := seqNo + 1;
          out := [ReasoningDelta(seqNo, delta.value)];
        }
      }
    }

    method IngestContent(content: Option<string>) returns (out: seq<StreamEvent>)
      modifies this`text, this`seqNo
      ensures Step(Now(), out) == OnContent(old(Now()), content)
      ensures text == old(text) + (if content.Some? then content.value else "")
      ensures out == if content.None? || content.value == "" then [] else [TextDelta(old(seqNo) + 1, content.value, None)]
    {
      out := [];
      if content.Some? && content.value != "" {
        text := text + content.value;
        seqNo := seqNo + 1;
        out := [TextDelta(seqNo, content.value, None)];
      }
    }

    method IngestCalls(calls: seq<CallDelta>) returns (out: seq<StreamEvent>)
      modifies this`toolArgs, this`seqNo
      ensures Step(Now(), out) == OnCalls(old(Now()), calls)
    {
      out := [];
      ghost var target := OnCalls(Now(), calls);
      for k := 0 to |calls|
        invariant var rest := OnCalls(Now(), calls[k..]);
                  target == Step(rest.chat, out + rest.events)
      {
        assert calls[k..][0] == calls[k] && calls[k..][1..] == calls[k + 1..];
        ghost var before := out;
        var event := IngestCall(calls[k]);
        out := out + [event];
        ghost var rest := OnCalls(Now(), calls[k + 1..]);
        assert (before + [event]) + rest.events == before + ([event] + rest.events);
      }
      assert calls[|calls|..] == [] && out + [] == out;
    }

    method IngestCall(call: CallDelta) returns (event: StreamEvent)
      modifies this`toolArgs, this`seqNo
      ensures Step(Now(), [event]) == OnCall(old(Now()), call)
      ensures |toolArgs| == Max(|old(toolArgs)|, call.index + 1)
      ensures forall j: nat | j != call.index :: SlotAt(toolArgs, j) == SlotAt(old(toolArgs), j)
      ensures var slot := SlotAt(old(toolArgs), call.index);
              toolArgs[call.index] == Slot(if call.id.Some? then call.id else slot.id,
                                           if call.name.Some? then call.name else slot.name, slot.arguments + call.arguments)
    {
      while |toolArgs| <= call.index
        invariant Grown(toolArgs, call.index) == Grown(old(toolArgs), call.index) && seqNo == old(seqNo)
        decreases call.index + 1 - |toolArgs|
      {
        toolArgs := toolArgs + [EMPTY_SLOT];
      }
      var entry := toolArgs[call.index];
      if call.id.Some? {
        entry := entry.(id := call.id);
      }
      if call.name.Some? {
        entry := entry.(name := call.name);
      }
      if call.arguments != "" {
        entry := entry.(arguments := entry.arguments + call.arguments);
      } else {
        assert entry.arguments + call.arguments == entry.arguments;
      }
      assert entry == Filled(toolArgs[call.index], call);
      toolArgs := toolArgs[call.index := entry];
      seqNo := seqNo + 1;
      event := ToolDelta(seqNo, call.index % U32_BOUND, entry.id, entry.name,
                         if call.arguments == "" then None else Some(call.arguments));
      GrownLength(old(toolArgs), call.index);
      forall j: nat
        ensures SlotAt(Grown(old(toolArgs), call.index), j) == SlotAt(old(toolArgs), j)
      {
        GrownSlots(old(toolArgs), call.index, j);
      }
    }

    method Finish() returns (outcome: Outcome)
      ensures outcome == Finished(toolNames, Now())
      ensures outcome.Completed? <==> sawTerminal
      ensures outcome.Completed? ==>
                && outcome.text == text && outcome.reasoning == reasoning && outcome.stopReason == finishReason
                && outcome.reasoningContent == (if sawReasoningContent then Some(rawReasoning) else None)
                && outcome.usage == (if usage.Some? then usage.value else Usage(0, 0, 0))
    {
      if !sawTerminal {
        return Truncated;
      }
      var calls := [];
      for i := 0 to |toolArgs|
        invariant calls == CallsOf(toolNames, toolArgs, i)
      {
        var slot := toolArgs[i];
        if slot.name.Some? {
          calls := calls + [ToolCall(if slot.id.Some? then slot.id.value else "call_" + LogNames.Decimal(i),
                                     Renamed(toolNames, slot.name.value), OrEmptyObject(slot.arguments))];
        } else {
          assert calls + [] == calls;
        }
      }
      return Completed(if usage.Some? then usage.value else NO_USAGE, finishReason, calls, text, reasoning,
                       if sawReasoningContent then Some(rawReasoning) else None);
    }
  }
}
