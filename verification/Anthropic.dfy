/** The assembler of Anthropic message streams. Tool calls are numbered in the order their blocks
    start, while argument deltas carry content-block indexes, so the statements are about what
    the events say and what the result holds, not about the provider's own call. */
module Anthropic {
  import opened Common
  import opened StreamTypes

  /** Parsed events; absent and mistyped JSON fields are `None`. */
  datatype Input =
    | TextBlockDelta(delta: Option<string>)
    | ThinkingDelta(thinking: Option<string>)
    | InputJsonDelta(index: nat, partial: string)
    | ToolUseStart(id: string, name: string)
    | MessageDelta(outputTokens: Option<nat>, stopReason: Option<string>)
    | MessageStop
    | MessageStart(usage: Option<Usage>)
    | Ignored

  datatype Assembly = Assembly(text: string, reasoning: string, slots: seq<Slot>, seqNo: nat, usage: Option<Usage>,
                               stopReason: Option<string>, sawTerminal: bool)

  const START: Assembly := Assembly("", "", [], 0, None, None, false)

  datatype Step = Step(state: Assembly, events: seq<StreamEvent>)

  function Known(usage: Option<Usage>): Usage {
    if usage.Some? then usage.value else NO_USAGE
  }

  function OnMessageDelta(a: Assembly, outputTokens: Option<nat>, stop: Option<string>): Step {
    var b := if stop.Some? then a.(stopReason := stop) else a;
    if outputTokens.None? then Step(b, [])
    else
      var usage := Known(a.usage).(output := outputTokens.value);
      Step(b.(usage := Some(usage), seqNo := a.seqNo + 1), [TextDelta(a.seqNo + 1, "", Some(usage))])
  }

  function OnInput(upper: char -> bool, a: Assembly, input: Input): Step {
    var next := a.seqNo + 1;
    match input
    case TextBlockDelta(text) =>
      if text.None? then Step(a, [])
      else Step(a.(text := a.text + text.value, seqNo := next), [TextDelta(next, text.value, None)])
    case ThinkingDelta(text) =>
      if text.None? then Step(a, [])
      else Step(a.(reasoning := AppendReasoning(upper, a.reasoning, text.value), seqNo := next), [ReasoningDelta(next, text.value)])
    case InputJsonDelta(index, partial) =>
      if index >= |a.slots| then Step(a, [])
      else
        var slot := a.slots[index];
        Step(a.(slots := a.slots[index := slot.(arguments := slot.arguments + partial)], seqNo := next),
             [ToolDelta(next, index % U32_BOUND, slot.id, slot.name, Some(partial))])
    case ToolUseStart(id, name) =>
      Step(a.(slots := a.slots + [Slot(Some(id), Some(name), "")], seqNo := next),
           [ToolDelta(next, |a.slots| % U32_BOUND, Some(id), Some(name), None)])
    case MessageDelta(outputTokens, stop) => OnMessageDelta(a, outputTokens, stop)
    case MessageStop => Step(a.(sawTerminal := true), [])
    case MessageStart(usage) =>
      if usage.None? then Step(a, [])
      else Step(a.(usage := usage, seqNo := next), [TextDelta(next, "", usage)])
    case Ignored => Step(a, [])
  }

  function OnStream(upper: char -> bool, a: Assembly, inputs: seq<Input>): Step
    decreases |inputs|
  {
    if |inputs| == 0 then Step(a, [])
    else
      var first := OnInput(upper, a, inputs[0]);
      var rest := OnStream(upper, first.state, inputs[1..]);
      Step(rest.state, first.events + rest.events)
  }

  // ---- The events rebuild the state ----

  /** What a consumer of the events has of the text and the reasoning agrees with the assembler, and
      its slots have 32-bit indexes. */
  ghost predicate Agree(upper: char -> bool, a: Assembly, v: View) {
    v.text == a.text && a.reasoning == Summary(upper, v.reasoning) && |v.slots| <= U32_BOUND
  }

  /** `w` agrees where `v` did, and on the slots too for as long as their indexes fit 32 bits. */
  ghost predicate Follows(upper: char -> bool, a: Assembly, v: View, b: Assembly, w: View) {
    Agree(upper, b, w) && (v.slots == a.slots && |b.slots| <= U32_BOUND ==> w.slots == b.slots)
  }

  ghost predicate Faithful(upper: char -> bool, a: Assembly, step: Step) {
    && Numbered(step.events, a.seqNo, step.state.seqNo) && |a.slots| <= |step.state.slots|
    && forall v | Agree(upper, a, v) :: Follows(upper, a, v, step.state, ReplayAll(v, step.events))
  }

  lemma InputFaithful(upper: char -> bool, a: Assembly, input: Input)
    ensures Faithful(upper, a, OnInput(upper, a, input))
  {
    var step := OnInput(upper, a, input);
    if |step.events| > 0 {
      assert step.events == [step.events[0]];
      forall v | Agree(upper, a, v)
        ensures Follows(upper, a, v, step.state, ReplayAll(v, step.events))
      {
        InputReplays(upper, a, input, v);
      }
    }
  }

  lemma InputReplays(upper: char -> bool, a: Assembly, input: Input, v: View)
    requires Agree(upper, a, v) && |OnInput(upper, a, input).events| > 0
    ensures Follows(upper, a, v, OnInput(upper, a, input).state, ReplayAll(v, OnInput(upper, a, input).events))
  {
    var step := OnInput(upper, a, input);
    assert step.events[1..] == [];
    assert ReplayAll(v, step.events) == Replay(v, step.events[0]);
    match input
    case ThinkingDelta(text) => SummarySnoc(upper, v.reasoning, text.value);
    case ToolUseStart(id, name) => StartReplays(upper, a, id, name, v);
    case InputJsonDelta(index, _) => GrownLength(v.slots, index % U32_BOUND);
    case _ =>
      assert v.text + "" == v.text;
  }

  lemma StartReplays(upper: char -> bool, a: Assembly, id: string, name: string, v: View)
    requires Agree(upper, a, v)
    ensures var step := OnInput(upper, a, ToolUseStart(id, name));
            Follows(upper, a, v, step.state, Replay(v, step.events[0]))
  {
    GrownLength(v.slots, |a.slots| % U32_BOUND);
    StartGrows(a.slots, Slot(Some(id), Some(name), ""));
  }

  lemma StartGrows(slots: seq<Slot>, slot: Slot)
    ensures Grown(slots, |slots|) == slots + [EMPTY_SLOT]
    ensures Grown(slots, |slots|)[|slots| := slot] == slots + [slot]
    ensures Grown(slots, |slots|)[|slots|].arguments + "" == ""
  {
    var grown := slots + [EMPTY_SLOT];
    assert Grown(grown, |slots|) == grown;
    assert grown[|slots| := slot] == slots + [slot];
  }

  lemma {:induction false} StreamFaithful(upper: char -> bool, a: Assembly, inputs: seq<Input>)
    ensures Faithful(upper, a, OnStream(upper, a, inputs))
    decreases |inputs|
  {
    if |inputs| > 0 {
      var first := OnInput(upper, a, inputs[0]);
      var rest := OnStream(upper, first.state, inputs[1..]);
      InputFaithful(upper, a, inputs[0]);
      StreamFaithful(upper, first.state, inputs[1..]);
      NumberedConcat(first.events, rest.events, a.seqNo, first.state.seqNo, rest.state.seqNo);
      forall v | Agree(upper, a, v)
        ensures Follows(upper, a, v, rest.state, ReplayAll(v, first.events + rest.events))
      {
        ReplayConcat(v, first.events, rest.events);
        assert Follows(upper, a, v, first.state, ReplayAll(v, first.events));
      }
    }
  }

  // ---- What the provider sent ----

  function TextIn(input: Input): seq<string> {
    if input.TextBlockDelta? then Present(input.delta) else []
  }

  function ThinkingIn(input: Input): seq<string> {
    if input.ThinkingDelta? then Present(input.thinking) else []
  }

  function StartIn(input: Input): seq<Slot> {
    if input.ToolUseStart? then [Slot(Some(input.id), Some(input.name), "")] else []
  }

  function StopIn(input: Input): seq<string> {
    if input.MessageDelta? then Present(input.stopReason) else []
  }

  /** Input and cached tokens come with the start, output tokens also later. */
  function UsageIn(input: Input): seq<Usage> {
    if input.MessageStart? then Present(input.usage) else []
  }

  function OutputIn(input: Input): seq<nat> {
    match input
    case MessageStart(usage) => if usage.Some? then [usage.value.output] else []
    case MessageDelta(output, _) => Present(output)
    case _ => []
  }

  /** The argument deltas with index `j` that come when more than `j` calls have started; `started` calls have before. */
  function PartsFor(inputs: seq<Input>, j: nat, started: nat): seq<string>
    decreases |inputs|
  {
    if |inputs| == 0 then []
    else
      PartIn(inputs[0], j, started) + PartsFor(inputs[1..], j, if inputs[0].ToolUseStart? then started + 1 else started)
  }

  // ---- Everything is what was sent ----

  function SlotAt(slots: seq<Slot>, j: nat): Slot {
    if j < |slots| then slots[j] else EMPTY_SLOT
  }

  /** The slots are those of the calls that have started, with all their arguments. */
  ghost predicate SlotsAfter(before: seq<Slot>, inputs: seq<Input>, after: seq<Slot>) {
    var names := before + Collected(inputs, StartIn);
    && |after| == |names|
    && forall j: nat :: SlotAt(after, j) == SlotAt(names, j).(arguments := SlotAt(before, j).arguments
                                                                           + Concat(PartsFor(inputs, j, |before|)))
  }

  /** From state `a` on, the inputs have led to this state and these events. */
  ghost predicate Received(a: Assembly, inputs: seq<Input>, step: Step) {
    && step.state.text == a.text + Concat(Collected(inputs, TextIn))
    && step.state.stopReason == Or(LastOf(Collected(inputs, StopIn)), a.stopReason)
    && step.state.sawTerminal == (a.sawTerminal || MessageStop in inputs)
    && Known(step.state.usage) == Counted(inputs, Known(a.usage))
    && Collected(step.events, TextOf) == Collected(inputs, TextIn)
    && Collected(step.events, ReasoningOf) == Collected(inputs, ThinkingIn)
    && Collected(step.events, OutputOf) == Collected(inputs, OutputIn)
  }

  function OutputOf(e: StreamEvent): seq<nat> {
    if e.TextDelta? && e.usage.Some? then [e.usage.value.output] else []
  }

  /** The last tokens of each kind that were reported, or those of `before`. */
  function Counted(inputs: seq<Input>, before: Usage): Usage {
    var starts, outputs := Collected(inputs, UsageIn), Collected(inputs, OutputIn);
    Usage(if |starts| > 0 then starts[|starts| - 1].input else before.input,
          if |outputs| > 0 then outputs[|outputs| - 1] else before.output,
          if |starts| > 0 then starts[|starts| - 1].cache else before.cache)
  }

  lemma CountedThen(a: seq<Input>, b: seq<Input>, before: Usage)
    ensures Counted(a + b, before) == Counted(b, Counted(a, before))
  {
    CollectedConcat(a, b, UsageIn);
    CollectedConcat(a, b, OutputIn);
  }

  lemma ReceivedThen(c: Assembly, a: seq<Input>, first: Step, b: seq<Input>, second: Step)
    requires Received(c, a, first) && Received(first.state, b, second)
    ensures Received(c, a + b, Step(second.state, first.events + second.events))
  {
    CollectedConcat(a, b, TextIn);
    CollectedConcat(a, b, ThinkingIn);
    CollectedConcat(a, b, StopIn);
    AppendTwice(c.text, Collected(a, TextIn), Collected(b, TextIn));
    LastOfConcat(Collected(a, StopIn), Collected(b, StopIn), c.stopReason);
    CountedThen(a, b, Known(c.usage));
    CollectedConcat(first.events, second.events, TextOf);
    CollectedConcat(first.events, second.events, ReasoningOf);
    CollectedConcat(first.events, second.events, OutputOf);
    CollectedConcat(a, b, OutputIn);
  }

  lemma InputReceived(upper: char -> bool, a: Assembly, input: Input)
    ensures Received(a, [input], OnInput(upper, a, input))
  {
    var step := OnInput(upper, a, input);
    CollectedOne(input, TextIn);
    CollectedOne(input, ThinkingIn);
    CollectedOne(input, StopIn);
    CollectedOne(input, UsageIn);
    CollectedOne(input, OutputIn);
    if input.TextBlockDelta? && input.delta.Some? {
      ConcatOne(input.delta.value);
    }
    assert a.text + "" == a.text;
    if |step.events| > 0 {
      CollectedOne(step.events[0], TextOf);
      CollectedOne(step.events[0], ReasoningOf);
      CollectedOne(step.events[0], OutputOf);
      assert step.events == [step.events[0]];
    }
  }

  lemma {:induction false} SlotsReceived(upper: char -> bool, a: Assembly, inputs: seq<Input>)
    ensures SlotsAfter(a.slots, inputs, OnStream(upper, a, inputs).state.slots)
    decreases |inputs|
  {
    if |inputs| == 0 {
      assert a.slots + [] == a.slots;
      forall j: nat
        ensures SlotAt(a.slots, j).arguments + "" == SlotAt(a.slots, j).arguments
      {
      }
    } else {
      var b := OnInput(upper, a, inputs[0]).state;
      SlotsReceived(upper, b, inputs[1..]);
      SlotsStep(upper, a, inputs, OnStream(upper, b, inputs[1..]).state.slots);
    }
  }

  lemma SameNames(upper: char -> bool, a: Assembly, input: Input, starts: seq<Slot>, j: nat)
    ensures var names, later := a.slots + (StartIn(input) + starts), OnInput(upper, a, input).state.slots + starts;
            && |names| == |later|
            && SlotAt(names, j).id == SlotAt(later, j).id && SlotAt(names, j).name == SlotAt(later, j).name
  {
  }

  lemma SlotsStep(upper: char -> bool, a: Assembly, inputs: seq<Input>, after: seq<Slot>)
    requires |inputs| > 0 && SlotsAfter(OnInput(upper, a, inputs[0]).state.slots, inputs[1..], after)
    ensures SlotsAfter(a.slots, inputs, after)
  {
    var names := a.slots + Collected(inputs, StartIn);
    SameNames(upper, a, inputs[0], Collected(inputs[1..], StartIn), 0);
    forall j: nat
      ensures SlotAt(after, j) == SlotAt(names, j).(arguments := SlotAt(a.slots, j).arguments
                                                                 + Concat(PartsFor(inputs, j, |a.slots|)))
    {
      SlotStep(upper, a, inputs, j);
      SameNames(upper, a, inputs[0], Collected(inputs[1..], StartIn), j);
    }
  }

  /** What one input adds to the arguments of slot `j`, of `started` slots. */
  function PartIn(input: Input, j: nat, started: nat): seq<string> {
    if input.InputJsonDelta? && input.index == j && j < started then [input.partial] else []
  }

  lemma InputSlots(upper: char -> bool, a: Assembly, input: Input, j: nat)
    ensures var b := OnInput(upper, a, input).state;
            && |b.slots| == (if input.ToolUseStart? then |a.slots| + 1 else |a.slots|)
            && SlotAt(b.slots, j).arguments == SlotAt(a.slots, j).arguments + Concat(PartIn(input, j, |a.slots|))
  {
    if input.InputJsonDelta? {
      ConcatOne(input.partial);
    }
    assert SlotAt(a.slots, j).arguments + "" == SlotAt(a.slots, j).arguments;
  }

  /** The arguments of one slot after the first input. */
  lemma SlotStep(upper: char -> bool, a: Assembly, inputs: seq<Input>, j: nat)
    requires |inputs| > 0
    ensures var b := OnInput(upper, a, inputs[0]).state;
            SlotAt(b.slots, j).arguments + Concat(PartsFor(inputs[1..], j, |b.slots|))
            == SlotAt(a.slots, j).arguments + Concat(PartsFor(inputs, j, |a.slots|))
  {
    var b := OnInput(upper, a, inputs[0]).state;
    InputSlots(upper, a, inputs[0], j);
    AppendTwice(SlotAt(a.slots, j).arguments, PartIn(inputs[0], j, |a.slots|), PartsFor(inputs[1..], j, |b.slots|));
  }

  /** Whatever is streamed, the state and the events are exactly what was sent: text and thinking in order, the last stop
      reason and token counts, and a slot for every call that started. */
  lemma {:induction false} StreamReceived(upper: char -> bool, a: Assembly, inputs: seq<Input>)
    ensures var step := OnStream(upper, a, inputs); Received(a, inputs, step) && SlotsAfter(a.slots, inputs, step.state.slots)
    decreases |inputs|
  {
    SlotsReceived(upper, a, inputs);
    if |inputs| == 0 {
      assert a.text + "" == a.text;
    } else {
      var first := OnInput(upper, a, inputs[0]);
      InputReceived(upper, a, inputs[0]);
      StreamReceived(upper, first.state, inputs[1..]);
      ReceivedThen(a, [inputs[0]], first, inputs[1..], OnStream(upper, first.state, inputs[1..]));
      HeadAndTail(inputs);
    }
  }

  // ---- The result ----

  function CallsOf(slots: seq<Slot>): seq<ToolCall> {
    seq(|slots|, i requires 0 <= i < |slots| => CallOf(slots[i]))
  }

  function CallOf(slot: Slot): ToolCall {
    ToolCall(if slot.id.Some? then slot.id.value else "", if slot.name.Some? then slot.name.value else "", OrEmptyObject(slot.arguments))
  }

  function Finished(a: Assembly): Outcome {
    if !a.sawTerminal then Truncated
    else Completed(Known(a.usage), a.stopReason, CallsOf(a.slots), a.text, a.reasoning, None)
  }

  /** Whatever is streamed: events are numbered 1 to n, and replaying them from nothing gives the
      completed text and the display form of the reasoning, and every tool call's arguments if and
      only if the indexes of all slots fit 32 bits. */
  lemma DeltasReplayToResult(upper: char -> bool, inputs: seq<Input>)
    ensures var step := OnStream(upper, START, inputs);
            var view, outcome := ReplayAll(NOTHING, step.events), Finished(step.state);
            && Numbered(step.events, 0, step.state.seqNo)
            && (view.slots == step.state.slots <==> |step.state.slots| <= U32_BOUND)
            && (outcome.Completed? ==>
                  && outcome.text == view.text && (view.slots == step.state.slots ==> outcome.toolCalls == CallsOf(view.slots))
                  && outcome.reasoning == Summary(upper, view.reasoning))
  {
    StreamFaithful(upper, START, inputs);
    assert Agree(upper, START, NOTHING);
  }

  /** `call` is the `j`-th that was started, with all the argument deltas that came for it. */
  ghost predicate Answers(inputs: seq<Input>, j: nat, call: ToolCall) {
    var starts, arguments := Collected(inputs, StartIn), Concat(PartsFor(inputs, j, 0));
    && j < |starts| && starts[j].id == Some(call.id) && starts[j].name == Some(call.name)
    && call.arguments == (if arguments == "" then "{}" else arguments)
  }

  lemma {:induction false} StartsAreNamed(inputs: seq<Input>, j: nat)
    requires j < |Collected(inputs, StartIn)|
    ensures var slot := Collected(inputs, StartIn)[j]; slot.id.Some? && slot.name.Some?
    decreases |inputs|
  {
    if inputs[0].ToolUseStart? {
      if j > 0 { StartsAreNamed(inputs[1..], j - 1); }
    } else {
      StartsAreNamed(inputs[1..], j);
    }
  }

  lemma CallAnswers(inputs: seq<Input>, slots: seq<Slot>, j: nat)
    requires SlotsAfter([], inputs, slots) && j < |slots|
    ensures Answers(inputs, j, CallOf(slots[j]))
  {
    assert [] + Collected(inputs, StartIn) == Collected(inputs, StartIn);
    StartsAreNamed(inputs, j);
    assert SlotAt(slots, j) == slots[j];
    assert "" + Concat(PartsFor(inputs, j, 0)) == Concat(PartsFor(inputs, j, 0));
  }

  lemma DisplayIsOfDeltas(upper: char -> bool, inputs: seq<Input>, step: Step)
    requires Faithful(upper, START, step) && Collected(step.events, ReasoningOf) == Collected(inputs, ThinkingIn)
    ensures step.state.reasoning == Summary(upper, Collected(inputs, ThinkingIn))
  {
    assert Agree(upper, START, NOTHING);
    ReasoningReplays(NOTHING, step.events);
    assert [] + Collected(step.events, ReasoningOf) == Collected(step.events, ReasoningOf);
  }

  /** The result is what the provider sent. It is completed if and only if the end was sent. Then its text is all text in
      order, the reasoning is the display form of all thinking deltas, stop reason and token counts are the last ones,
      and there is one call for every call that was started. */
  lemma ResultIsWhatWasSent(upper: char -> bool, inputs: seq<Input>)
    ensures var outcome := Finished(OnStream(upper, START, inputs).state);
            && (outcome.Completed? <==> MessageStop in inputs)
            && (outcome.Completed? ==>
                  && outcome.text == Concat(Collected(inputs, TextIn))
                  && outcome.reasoning == Summary(upper, Collected(inputs, ThinkingIn)) && outcome.reasoningContent == None
                  && outcome.stopReason == LastOf(Collected(inputs, StopIn))
                  && outcome.usage == Counted(inputs, Usage(0, 0, 0))
                  && |outcome.toolCalls| == |Collected(inputs, StartIn)|
                  && forall j | 0 <= j < |outcome.toolCalls| :: Answers(inputs, j, outcome.toolCalls[j]))
  {
    var step := OnStream(upper, START, inputs);
    StreamReceived(upper, START, inputs);
    StreamFaithful(upper, START, inputs);
    DisplayIsOfDeltas(upper, inputs, step);
    assert "" + Concat(Collected(inputs, TextIn)) == Concat(Collected(inputs, TextIn));
    assert [] + Collected(inputs, StartIn) == Collected(inputs, StartIn);
    forall j: nat | j < |step.state.slots|
      ensures Answers(inputs, j, CallOf(step.state.slots[j]))
    {
      CallAnswers(inputs, step.state.slots, j);
    }
  }

  // ---- The assembler itself ----

  class AnthropicAssembler {
    const upper: char -> bool
    var text: string
    var reasoning: string
    var toolArgs: seq<Slot>
    var seqNo: nat
    var usage: Option<Usage>
    var stopReason: Option<string>
    var sawTerminal: bool

    function Now(): Assembly
      reads this
    {
      Assembly(text, reasoning, toolArgs, seqNo, usage, stopReason, sawTerminal)
    }

    constructor (upper: char -> bool)
      ensures Now() == START && this.upper == upper
    {
      this.upper := upper;
      text, reasoning, toolArgs, seqNo, usage, stopReason, sawTerminal := "", "", [], 0, None, None, false;
    }

    method Ingest(input: Input) returns (out: seq<StreamEvent>)
      modifies this
      ensures Step(Now(), out) == OnInput(upper, old(Now()), input)
    {
      out := [];
      match input
      case TextBlockDelta(delta) =>
        if delta.Some? {
          text := text + delta.value;
          seqNo := seqNo + 1;
          out := [TextDelta(seqNo, delta.value, None)];
        }
      case ThinkingDelta(delta) =>
        if delta.Some? {
          reasoning := AppendReasoningSummary(upper, reasoning, delta.value);
          seqNo := seqNo + 1;
          out := [ReasoningDelta(seqNo, delta.value)];
        }
      case InputJsonDelta(index, partial) =>
        if index < |toolArgs| {
          var entry := toolArgs[index];
          toolArgs := toolArgs[index := entry.(arguments := entry.arguments + partial)];
          seqNo := seqNo + 1;
          out := [ToolDelta(seqNo, index % U32_BOUND, entry.id, entry.name, Some(partial))];
        }
      case ToolUseStart(id, name) =>
        toolArgs := toolArgs + [Slot(Some(id), Some(name), "")];
        var index := |toolArgs| - 1;
        seqNo := seqNo + 1;
        out := [ToolDelta(seqNo, index % U32_BOUND, Some(id), Some(name), None)];
      case MessageDelta(outputTokens, stop) =>
        if outputTokens.Some? {
          var counted := Known(usage).(output := outputTokens.value);
          usage := Some(counted);
          seqNo := seqNo + 1;
          out := [TextDelta(seqNo, "", Some(counted))];
        }
        if stop.Some? {
          stopReason := stop;
        }
      case MessageStop =>
        sawTerminal := true;
      case MessageStart(started) =>
        if started.Some? {
          usage := started;
          seqNo := seqNo + 1;
          out := [TextDelta(seqNo, "", usage)];
        }
      case Ignored =>
    }

    method Finish() returns (outcome: Outcome)
      ensures outcome == Finished(Now())
      ensures outcome.Completed? <==> sawTerminal
      ensures outcome.Completed? ==>
                && outcome.text == text && outcome.reasoning == reasoning && outcome.stopReason == stopReason
                && outcome.usage == (if usage.Some? then usage.value else Usage(0, 0, 0))
    {
      if !sawTerminal {
        return Truncated;
      }
      var calls := seq(|toolArgs|, i requires 0 <= i < |toolArgs| reads this => CallOf(toolArgs[i]));
      assert calls == CallsOf(toolArgs);
      return Completed(Known(usage), stopReason, calls, text, reasoning, None);
    }
  }
}
