/** The assembler of OpenAI Responses streams. A function call is named by an item id, a call id
    or both, in any order and mixture; every name resolves to one slot. */
module OpenaiResponses {
  import LogNames
  import opened Common
  import opened StreamTypes


  datatype Item = FunctionCall(id: Option<string>, callId: Option<string>, name: Option<string>, arguments: Option<string>) | OtherItem

  /** Parsed events; absent and mistyped JSON fields are `None`. */
  datatype Input =
    | DoneMarker
    | OutputTextDelta(delta: string)
    | ReasoningSummary(delta: string)
    | ArgumentsDelta(itemId: Option<string>, delta: string)
    | OutputItem(item: Item)
    | ResponseCompleted(usage: Option<Usage>, output: seq<Item>)
    | ResponseFailed(detail: string)
    | Ignored

  datatype Tool = Tool(id: string, name: string, arguments: string, aliases: seq<string>)

  /** The slots, and which of them each alias resolves to. */
  datatype Table = Table(tools: seq<Tool>, indexes: map<string, nat>)

  datatype Found = Found(table: Table, index: nat)

  ghost predicate TableOk(t: Table) {
    forall k | k in t.indexes :: k != "" && t.indexes[k] < |t.tools| && k in t.tools[t.indexes[k]].aliases
  }

  // ---- Resolving aliases ----

  function Given(id: Option<string>): seq<string> {
    if id.Some? && id.value != "" then [id.value] else []
  }

  function Keys(item: Option<string>, call: Option<string>): seq<string> {
    Given(item) + Given(call)
  }

  /** The first key that is known. */
  function FirstKnown(indexes: map<string, nat>, keys: seq<string>): Option<string> {
    if |keys| == 0 then None else if keys[0] in indexes then Some(keys[0]) else FirstKnown(indexes, keys[1..])
  }

  /** Register the other keys for the slot, without taking one from another slot. */
  function Linked(t: Table, keys: seq<string>, key: string, index: nat): Table
    requires index < |t.tools|
    decreases |keys|
  {
    if |keys| == 0 then t
    else if keys[0] == key then Linked(t, keys[1..], key, index)
    else
      var indexes := if keys[0] in t.indexes then t.indexes else t.indexes[keys[0] := index];
      var tool := t.tools[index];
      Linked(Table(t.tools[index := tool.(aliases := tool.aliases + [keys[0]])], indexes), keys[1..], key, index)
  }

  function Named(tools: seq<Tool>, index: nat, name: Option<string>): seq<Tool>
    requires index < |tools|
  {
    if name.Some? then tools[index := tools[index].(name := name.value)] else tools
  }

  function Inserted(indexes: map<string, nat>, keys: seq<string>, index: nat): map<string, nat>
    decreases |keys|
  {
    if |keys| == 0 then indexes else Inserted(indexes[keys[0] := index], keys[1..], index)
  }

  function FreshId(item: Option<string>, call: Option<string>, count: nat): string {
    if call.Some? then call.value else if item.Some? then item.value else "call_" + LogNames.Decimal(count)
  }

  lemma {:induction false} LinkedLength(t: Table, keys: seq<string>, key: string, index: nat)
    requires index < |t.tools|
    ensures |Linked(t, keys, key, index).tools| == |t.tools|
    decreases |keys|
  {
    if |keys| > 0 {
      if keys[0] == key {
        LinkedLength(t, keys[1..], key, index);
      } else {
        var indexes := if keys[0] in t.indexes then t.indexes else t.indexes[keys[0] := index];
        var tool := t.tools[index];
        LinkedLength(Table(t.tools[index := tool.(aliases := tool.aliases + [keys[0]])], indexes), keys[1..], key, index);
      }
    }
  }

  lemma {:induction false} FirstKnownIsKnown(indexes: map<string, nat>, keys: seq<string>)
    ensures FirstKnown(indexes, keys).Some? ==> FirstKnown(indexes, keys).value in indexes && FirstKnown(indexes, keys).value in keys
    ensures FirstKnown(indexes, keys).None? ==> forall k | k in keys :: k !in indexes
    decreases |keys|
  {
    if |keys| > 0 && keys[0] !in indexes {
      FirstKnownIsKnown(indexes, keys[1..]);
      assert keys == [keys[0]] + keys[1..];
    }
  }

  function EnsureTool(t: Table, item: Option<string>, call: Option<string>, name: Option<string>): (f: Found)
    requires TableOk(t)
    ensures f.index < |f.table.tools|
  {
    var keys := Keys(item, call);
    var known := FirstKnown(t.indexes, keys);
    FirstKnownIsKnown(t.indexes, keys);
    if known.Some? then
      var index := t.indexes[known.value];
      LinkedLength(t, keys, known.value, index);
      var linked := Linked(t, keys, known.value, index);
      Found(Table(Named(linked.tools, index, name), linked.indexes), index)
    else
      var index := |t.tools|;
      var tool := Tool(FreshId(item, call, index), if name.Some? then name.value else "", "", keys);
      Found(Table(t.tools + [tool], Inserted(t.indexes, keys, index)), index)
  }

  // ---- Aliases are never lost or remapped ----

  ghost predicate Extends(t: Table, u: Table) {
    && |t.tools| <= |u.tools|
    && forall k | k in t.indexes :: k in u.indexes && u.indexes[k] == t.indexes[k]
  }

  lemma {:induction false} LinkedExtends(t: Table, keys: seq<string>, key: string, index: nat)
    requires TableOk(t) && index < |t.tools| && forall k | k in keys :: k != ""
    ensures TableOk(Linked(t, keys, key, index)) && Extends(t, Linked(t, keys, key, index))
    ensures forall k | k in keys :: k == key || k in Linked(t, keys, key, index).indexes
    decreases |keys|
  {
    if |keys| > 0 {
      assert keys == [keys[0]] + keys[1..] && keys[0] in keys;
      assert forall k | k in keys[1..] :: k in keys;
      if keys[0] == key {
        LinkedExtends(t, keys[1..], key, index);
      } else {
        var indexes := if keys[0] in t.indexes then t.indexes else t.indexes[keys[0] := index];
        var tool := t.tools[index];
        var next := Table(t.tools[index := tool.(aliases := tool.aliases + [keys[0]])], indexes);
        assert TableOk(next) && Extends(t, next);
        LinkedExtends(next, keys[1..], key, index);
      }
    }
  }

  lemma {:induction false} InsertedAt(indexes: map<string, nat>, keys: seq<string>, index: nat, k: string)
    ensures k in Inserted(indexes, keys, index) <==> k in indexes || k in keys
    ensures k in keys ==> Inserted(indexes, keys, index)[k] == index
    ensures k in indexes && k !in keys ==> Inserted(indexes, keys, index)[k] == indexes[k]
    decreases |keys|
  {
    if |keys| > 0 {
      InsertedAt(indexes[keys[0] := index], keys[1..], index, k);
      assert keys == [keys[0]] + keys[1..];
    }
  }

  /** Resolving a call keeps every alias where it is, and from then on each of its own names
      resolves somewhere: a name seen for the first time, to the slot of the call. */
  lemma EnsureToolKeeps(t: Table, item: Option<string>, call: Option<string>, name: Option<string>)
    requires TableOk(t)
    ensures var f := EnsureTool(t, item, call, name);
            && TableOk(f.table) && Extends(t, f.table)
            && (forall k | k in Keys(item, call) :: k in f.table.indexes)
    ensures item.Some? && item.value != "" && (call.None? || call.value == "") ==>
              EnsureTool(t, item, call, name).table.indexes[item.value] == EnsureTool(t, item, call, name).index
  {
    var keys := Keys(item, call);
    FirstKnownIsKnown(t.indexes, keys);
    var known := FirstKnown(t.indexes, keys);
    if known.Some? {
      LinkedExtends(t, keys, known.value, t.indexes[known.value]);
      LinkedLength(t, keys, known.value, t.indexes[known.value]);
    } else {
      forall k
        ensures k in Inserted(t.indexes, keys, |t.tools|) <==> k in t.indexes || k in keys
        ensures k in keys ==> Inserted(t.indexes, keys, |t.tools|)[k] == |t.tools|
        ensures k in t.indexes && k !in keys ==> Inserted(t.indexes, keys, |t.tools|)[k] == t.indexes[k]
      {
        InsertedAt(t.indexes, keys, |t.tools|, k);
      }
    }
  }

  // ---- Which slot a call resolves to ----

  predicate Resolvable(t: Table, key: Option<string>) {
    key.Some? && key.value != "" && key.value in t.indexes
  }

  /** The slot of a call: that of its item id if it is known, else that of its call id, else a new one. */
  function SlotFor(t: Table, item: Option<string>, call: Option<string>): nat {
    if Resolvable(t, item) then t.indexes[item.value] else if Resolvable(t, call) then t.indexes[call.value] else |t.tools|
  }

  /** Its names resolve, those that are new to this slot; the other slots and names are as before. */
  ghost predicate Resolves(t: Table, u: Table, item: Option<string>, call: Option<string>) {
    var index := SlotFor(t, item, call);
    && index < |u.tools| == Max(|t.tools|, index + 1)
    && (forall i | 0 <= i < |t.tools| && i != index :: u.tools[i] == t.tools[i])
    && (forall k :: k in u.indexes <==> k in t.indexes || (k != "" && (Some(k) == item || Some(k) == call)))
    && (forall k | k in u.indexes :: u.indexes[k] == if k in t.indexes then t.indexes[k] else index)
  }

  lemma {:induction false} LinkedTools(t: Table, keys: seq<string>, key: string, index: nat)
    requires index < |t.tools|
    ensures var u := Linked(t, keys, key, index);
            && |u.tools| == |t.tools| && (forall i | 0 <= i < |t.tools| && i != index :: u.tools[i] == t.tools[i])
            && u.tools[index] == t.tools[index].(aliases := u.tools[index].aliases)
    decreases |keys|
  {
    if |keys| > 0 {
      if keys[0] == key {
        LinkedTools(t, keys[1..], key, index);
      } else {
        var indexes := if keys[0] in t.indexes then t.indexes else t.indexes[keys[0] := index];
        var tool := t.tools[index];
        LinkedTools(Table(t.tools[index := tool.(aliases := tool.aliases + [keys[0]])], indexes), keys[1..], key, index);
      }
    }
  }

  lemma {:induction false} LinkedIndexes(t: Table, keys: seq<string>, key: string, index: nat, k: string)
    requires index < |t.tools| && key in t.indexes
    ensures var u := Linked(t, keys, key, index);
            && (k in u.indexes <==> k in t.indexes || k in keys)
            && (k in u.indexes ==> u.indexes[k] == if k in t.indexes then t.indexes[k] else index)
    decreases |keys|
  {
    if |keys| > 0 {
      assert keys == [keys[0]] + keys[1..];
      if keys[0] == key {
        LinkedIndexes(t, keys[1..], key, index, k);
      } else {
        var indexes := if keys[0] in t.indexes then t.indexes else t.indexes[keys[0] := index];
        var tool := t.tools[index];
        LinkedIndexes(Table(t.tools[index := tool.(aliases := tool.aliases + [keys[0]])], indexes), keys[1..], key, index, k);
      }
    }
  }

  lemma KeysAre(item: Option<string>, call: Option<string>, k: string)
    ensures k in Keys(item, call) <==> k != "" && (Some(k) == item || Some(k) == call)
  {
  }

  lemma KnownConcat(indexes: map<string, nat>, a: seq<string>, b: seq<string>)
    requires |a| <= 1
    ensures FirstKnown(indexes, a + b) == if |a| == 1 && a[0] in indexes then Some(a[0]) else FirstKnown(indexes, b)
  {
    if |a| == 0 {
      assert a + b == b;
    } else {
      assert (a + b)[1..] == b;
    }
  }

  lemma FirstKnownIs(t: Table, item: Option<string>, call: Option<string>)
    ensures FirstKnown(t.indexes, Keys(item, call))
         == if Resolvable(t, item) then item else if Resolvable(t, call) then call else None
  {
    KnownConcat(t.indexes, Given(item), Given(call));
    KnownConcat(t.indexes, Given(call), []);
    assert Given(call) + [] == Given(call);
  }

  /** The names that resolve afterwards. */
  lemma EnsureToolIndexes(t: Table, item: Option<string>, call: Option<string>, name: Option<string>, k: string)
    requires TableOk(t)
    ensures var f := EnsureTool(t, item, call, name);
            && (k in f.table.indexes <==> k in t.indexes || (k != "" && (Some(k) == item || Some(k) == call)))
            && (k in f.table.indexes ==> f.table.indexes[k] == if k in t.indexes then t.indexes[k] else f.index)
  {
    var keys := Keys(item, call);
    FirstKnownIsKnown(t.indexes, keys);
    KeysAre(item, call, k);
    var known := FirstKnown(t.indexes, keys);
    if known.Some? {
      LinkedIndexes(t, keys, known.value, t.indexes[known.value], k);
    } else {
      InsertedAt(t.indexes, keys, |t.tools|, k);
    }
  }

  /** The other slots stay. */
  lemma EnsureToolOthers(t: Table, item: Option<string>, call: Option<string>, name: Option<string>)
    requires TableOk(t)
    ensures var f := EnsureTool(t, item, call, name);
            && f.index == SlotFor(t, item, call) && |f.table.tools| == Max(|t.tools|, f.index + 1)
            && forall i | 0 <= i < |t.tools| && i != f.index :: f.table.tools[i] == t.tools[i]
  {
    FirstKnownIs(t, item, call);
    var known := FirstKnown(t.indexes, Keys(item, call));
    if known.Some? {
      LinkedTools(t, Keys(item, call), known.value, t.indexes[known.value]);
    }
  }

  /** What resolving does, slot by slot and name by name. */
  lemma EnsureToolResolves(t: Table, item: Option<string>, call: Option<string>, name: Option<string>)
    requires TableOk(t)
    ensures Resolves(t, EnsureTool(t, item, call, name).table, item, call)
  {
    EnsureToolOthers(t, item, call, name);
    forall k
      ensures var f := EnsureTool(t, item, call, name);
              && (k in f.table.indexes <==> k in t.indexes || (k != "" && (Some(k) == item || Some(k) == call)))
              && (k in f.table.indexes ==> f.table.indexes[k] == if k in t.indexes then t.indexes[k] else f.index)
    {
      EnsureToolIndexes(t, item, call, name, k);
    }
  }

  /** The resolved slot keeps its id and arguments and takes the name that is given; a new one is named after the call id,
      else the item id, else its number. */
  lemma EnsureToolFields(t: Table, item: Option<string>, call: Option<string>, name: Option<string>)
    requires TableOk(t)
    ensures var f := EnsureTool(t, item, call, name);
            var tool, known := f.table.tools[f.index], f.index < |t.tools|;
            && f.index == SlotFor(t, item, call)
            && tool.arguments == (if known then t.tools[f.index].arguments else "")
            && tool.name == (if name.Some? then name.value else if known then t.tools[f.index].name else "")
            && tool.id == if known then t.tools[f.index].id
                          else if call.Some? then call.value else if item.Some? then item.value
                          else "call_" + LogNames.Decimal(f.index)
  {
    var keys := Keys(item, call);
    FirstKnownIs(t, item, call);
    var known := FirstKnown(t.indexes, keys);
    if known.Some? {
      LinkedTools(t, keys, known.value, t.indexes[known.value]);
    }
  }

  // ---- One event ----

  datatype Assembly = Assembly(text: string, reasoning: string, seqNo: nat, usage: Option<Usage>, failed: Option<string>,
                               sawTerminal: bool, table: Table)

  const START: Assembly := Assembly("", "", 0, None, None, false, Table([], map[]))

  datatype Step = Step(state: Assembly, events: seq<StreamEvent>)

  function Alias(tool: Tool): string {
    if |tool.aliases| > 0 then tool.aliases[0] else tool.id
  }

  function MergedItem(t: Table, item: Item): Table
    requires TableOk(t)
  {
    if item.OtherItem? then t
    else
      var f := EnsureTool(t, item.id, item.callId, item.name);
      var tool := f.table.tools[f.index];
      var identified := if item.callId.Some? then tool.(id := item.callId.value) else tool;
      var filled := if item.arguments.Some? then identified.(arguments := item.arguments.value) else identified;
      f.table.(tools := f.table.tools[f.index := filled])
  }

  lemma MergedItemKeeps(t: Table, item: Item)
    requires TableOk(t)
    ensures TableOk(MergedItem(t, item)) && Extends(t, MergedItem(t, item))
  {
    if item.FunctionCall? {
      EnsureToolKeeps(t, item.id, item.callId, item.name);
    }
  }

  function MergedItems(t: Table, items: seq<Item>): (u: Table)
    requires TableOk(t)
    ensures TableOk(u) && Extends(t, u)
    decreases |items|
  {
    if |items| == 0 then t
    else
      MergedItemKeeps(t, items[0]);
      MergedItems(MergedItem(t, items[0]), items[1..])
  }

  function OnArguments(a: Assembly, itemId: Option<string>, delta: string): Step
    requires TableOk(a.table)
  {
    var f := EnsureTool(a.table, itemId, None, None);
    var tool := f.table.tools[f.index];
    var filled := tool.(arguments := tool.arguments + delta);
    Step(a.(table := f.table.(tools := f.table.tools[f.index := filled]), seqNo := a.seqNo + 1),
         [ToolDelta(a.seqNo + 1, f.index % U32_BOUND, Some(Alias(filled)), Some(filled.name),
                    if delta == "" then None else Some(delta))])
  }

  function OnInput(upper: char -> bool, a: Assembly, input: Input): Step
    requires TableOk(a.table)
  {
    match input
    case DoneMarker => Step(a.(sawTerminal := true), [])
    case OutputTextDelta(delta) =>
      if delta == "" then Step(a, [])
      else Step(a.(text := a.text + delta, seqNo := a.seqNo + 1), [TextDelta(a.seqNo + 1, delta, None)])
    case ReasoningSummary(delta) =>
      if delta == "" then Step(a, [])
      else Step(a.(reasoning := AppendReasoning(upper, a.reasoning, delta), seqNo := a.seqNo + 1), [ReasoningDelta(a.seqNo + 1, delta)])
    case ArgumentsDelta(itemId, delta) => OnArguments(a, itemId, delta)
    case OutputItem(item) => Step(a.(table := MergedItem(a.table, item)), [])
    case ResponseCompleted(usage, output) =>
      Step(a.(sawTerminal := true, usage := if usage.Some? then usage else a.usage, table := MergedItems(a.table, output)), [])
    case ResponseFailed(detail) => Step(a.(failed := Some(detail)), [StreamEvent.Failed(detail)])
    case Ignored => Step(a, [])
  }

  lemma InputKeeps(upper: char -> bool, a: Assembly, input: Input)
    requires TableOk(a.table)
    ensures TableOk(OnInput(upper, a, input).state.table) && Extends(a.table, OnInput(upper, a, input).state.table)
  {
    match input
    case ArgumentsDelta(itemId, _) => EnsureToolKeeps(a.table, itemId, None, None);
    case OutputItem(item) => MergedItemKeeps(a.table, item);
    case _ =>
  }

  function OnStream(upper: char -> bool, a: Assembly, inputs: seq<Input>): Step
    requires TableOk(a.table)
    decreases |inputs|
  {
    if |inputs| == 0 then Step(a, [])
    else
      InputKeeps(upper, a, inputs[0]);
      var first := OnInput(upper, a, inputs[0]);
      var rest := OnStream(upper, first.state, inputs[1..]);
      Step(rest.state, first.events + rest.events)
  }

  /** For every event sequence each alias keeps the slot it first got. */
  lemma {:induction false} AliasesAreNeverRemapped(upper: char -> bool, a: Assembly, inputs: seq<Input>)
    requires TableOk(a.table)
    ensures TableOk(OnStream(upper, a, inputs).state.table) && Extends(a.table, OnStream(upper, a, inputs).state.table)
    decreases |inputs|
  {
    if |inputs| > 0 {
      InputKeeps(upper, a, inputs[0]);
      AliasesAreNeverRemapped(upper, OnInput(upper, a, inputs[0]).state, inputs[1..]);
    }
  }

  lemma {:induction false} StreamConcat(upper: char -> bool, a: Assembly, first: seq<Input>, second: seq<Input>)
    requires TableOk(a.table)
    ensures TableOk(OnStream(upper, a, first).state.table)
    ensures OnStream(upper, a, first + second).state == OnStream(upper, OnStream(upper, a, first).state, second).state
    decreases |first|
  {
    AliasesAreNeverRemapped(upper, a, first);
    if |first| == 0 {
      assert first + second == second;
    } else {
      InputKeeps(upper, a, first[0]);
      assert (first + second)[1..] == first[1..] + second;
      StreamConcat(upper, OnInput(upper, a, first[0]).state, first[1..], second);
    }
  }

  /** Only the arguments of slot `s` have grown, by `delta`; a new slot may have come. */
  ghost predicate GrewBy(t: Table, u: Table, s: nat, delta: string) {
    && s < |u.tools| == Max(|t.tools|, s + 1)
    && (forall i | 0 <= i < |t.tools| && i != s :: u.tools[i] == t.tools[i])
    && u.tools[s].arguments == (if s < |t.tools| then t.tools[s].arguments else "") + delta
    && (s < |t.tools| ==> u.tools[s].id == t.tools[s].id && u.tools[s].name == t.tools[s].name)
  }

  /** One argument delta: the slot of its item grows, and one event says so. */
  lemma DeltaGrows(a: Assembly, itemId: Option<string>, delta: string)
    requires TableOk(a.table)
    ensures var u, s := OnArguments(a, itemId, delta).state.table, SlotFor(a.table, itemId, None);
            && Resolves(a.table, u, itemId, None) && GrewBy(a.table, u, s, delta)
            && OnArguments(a, itemId, delta).events
               == [ToolDelta(a.seqNo + 1, s % 0x1_0000_0000,
                             Some(if |u.tools[s].aliases| > 0 then u.tools[s].aliases[0] else u.tools[s].id),
                             Some(u.tools[s].name), if delta == "" then None else Some(delta))]
  {
    EnsureToolResolves(a.table, itemId, None, None);
    EnsureToolFields(a.table, itemId, None, None);
  }

  /** Every argument delta of an item grows the one slot its id resolves to in the end, and no other. */
  lemma DeltasLandInOneSlot(upper: char -> bool, a: Assembly, inputs: seq<Input>, id: string, p: nat)
    requires TableOk(a.table) && id != "" && p < |inputs| && inputs[p].ArgumentsDelta? && inputs[p].itemId == Some(id)
    ensures var t, u, end := OnStream(upper, a, inputs[..p]).state.table, OnStream(upper, a, inputs[..p + 1]).state.table,
                             OnStream(upper, a, inputs).state.table;
            id in end.indexes && GrewBy(t, u, end.indexes[id], inputs[p].delta)
  {
    var before := OnStream(upper, a, inputs[..p]).state;
    assert inputs[..p + 1] == inputs[..p] + [inputs[p]] && inputs == inputs[..p + 1] + inputs[p + 1..];
    StreamConcat(upper, a, inputs[..p], [inputs[p]]);
    StreamConcat(upper, a, inputs[..p + 1], inputs[p + 1..]);
    OneInput(upper, before, inputs[p]);
    DeltaGrows(before, Some(id), inputs[p].delta);
    AliasesAreNeverRemapped(upper, OnStream(upper, a, inputs[..p + 1]).state, inputs[p + 1..]);
  }

  lemma OneInput(upper: char -> bool, a: Assembly, input: Input)
    requires TableOk(a.table)
    ensures OnStream(upper, a, [input]).state == OnInput(upper, a, input).state
  {
    InputKeeps(upper, a, input);
    assert [input][1..] == [];
  }

  // ---- What the provider sent about its calls ----

  datatype Message =
    | Delta(key: Option<string>, text: string)
    | Final(item: Option<string>, call: Option<string>, name: Option<string>, arguments: Option<string>)

  function MessagesOf(item: Item): seq<Message> {
    match item
    case FunctionCall(id, callId, name, arguments) => [Final(id, callId, name, arguments)]
    case OtherItem => []
  }

  function MessagesIn(input: Input): seq<Message> {
    match input
    case ArgumentsDelta(itemId, delta) => [Delta(itemId, delta)]
    case OutputItem(item) => MessagesOf(item)
    case ResponseCompleted(_, output) => Collected(output, MessagesOf)
    case _ => []
  }

  function ItemId(m: Message): Option<string> {
    if m.Delta? then m.key else m.item
  }

  function CallId(m: Message): Option<string> {
    if m.Delta? then None else m.call
  }

  /** The first name of a call that is not empty. */
  function FirstName(m: Message): Option<string> {
    if ItemId(m).Some? && ItemId(m).value != "" then ItemId(m)
    else if CallId(m).Some? && CallId(m).value != "" then CallId(m)
    else None
  }

  function CallIdIn(m: Message): seq<string> {
    Present(CallId(m))
  }

  function NameIn(m: Message): seq<string> {
    if m.Final? then Present(m.name) else []
  }

  /** Final arguments replace what came before; deltas are added. */
  function ArgumentsAfter(ms: seq<Message>): string
    decreases |ms|
  {
    if |ms| == 0 then ""
    else
      var before := ArgumentsAfter(ms[..|ms| - 1]);
      match ms[|ms| - 1]
      case Delta(_, text) => before + text
      case Final(_, _, _, arguments) => if arguments.Some? then arguments.value else before
  }

  /** The provider's last call id, or else the name under which the call was first mentioned. */
  function IdAfter(ms: seq<Message>): string {
    var ids := Collected(ms, CallIdIn);
    if |ids| > 0 then ids[|ids| - 1]
    else if |ms| > 0 && FirstName(ms[0]).Some? then FirstName(ms[0]).value
    else ""
  }

  function NameAfter(ms: seq<Message>): string {
    var names := Collected(ms, NameIn);
    if |names| > 0 then names[|names| - 1] else ""
  }

  /** The messages whose first name resolves to slot `s`. */
  function For(ms: seq<Message>, indexes: map<string, nat>, s: nat): seq<Message>
    decreases |ms|
  {
    if |ms| == 0 then []
    else
      var n := |ms| - 1;
      For(ms[..n], indexes, s) + (if Lands(ms[n], indexes, s) then [ms[n]] else [])
  }

  predicate Lands(m: Message, indexes: map<string, nat>, s: nat) {
    FirstName(m).Some? && FirstName(m).value in indexes && indexes[FirstName(m).value] == s
  }

  // ---- Every slot is what was sent for it ----

  /** The slot is what these messages say. */
  ghost predicate SlotIs(tool: Tool, ms: seq<Message>) {
    ms != [] && tool.arguments == ArgumentsAfter(ms) && tool.id == IdAfter(ms) && tool.name == NameAfter(ms)
  }

  /** Every alias leads to a slot that is what was sent for it. */
  ghost predicate Sent(t: Table, ms: seq<Message>) {
    && (forall m | m in ms && FirstName(m).Some? :: FirstName(m).value in t.indexes)
    && (forall k | k in t.indexes :: t.indexes[k] < |t.tools| && SlotIs(t.tools[t.indexes[k]], For(ms, t.indexes, t.indexes[k])))
  }

  /** One message leads from `t` to `u`. */
  ghost predicate Sends(t: Table, u: Table, m: Message) {
    var index := SlotFor(t, ItemId(m), CallId(m));
    && Resolves(t, u, ItemId(m), CallId(m))
    && Told(if index < |t.tools| then Some(t.tools[index]) else None, u.tools[index], m)
  }

  /** What one message makes of its slot. */
  ghost predicate Told(before: Option<Tool>, after: Tool, m: Message) {
    var arguments := if before.Some? then before.value.arguments else "";
    && after.arguments == (match m
                           case Delta(_, text) => arguments + text
                           case Final(_, _, _, given) => if given.Some? then given.value else arguments)
    && after.name == (if m.Final? && m.name.Some? then m.name.value else if before.Some? then before.value.name else "")
    && (CallId(m).Some? ==> after.id == CallId(m).value)
    && (CallId(m).None? && before.Some? ==> after.id == before.value.id)
    && (CallId(m).None? && before.None? && FirstName(m).Some? ==> after.id == FirstName(m).value)
  }

  lemma DeltaTold(a: Assembly, itemId: Option<string>, delta: string)
    requires TableOk(a.table)
    ensures var t, u, index := a.table, OnArguments(a, itemId, delta).state.table, SlotFor(a.table, itemId, None);
            && index < |u.tools|
            && Told(if index < |t.tools| then Some(t.tools[index]) else None, u.tools[index], Delta(itemId, delta))
  {
    EnsureToolFields(a.table, itemId, None, None);
  }

  lemma DeltaSends(a: Assembly, itemId: Option<string>, delta: string)
    requires TableOk(a.table)
    ensures Sends(a.table, OnArguments(a, itemId, delta).state.table, Delta(itemId, delta))
  {
    DeltaGrows(a, itemId, delta);
    DeltaTold(a, itemId, delta);
  }

  lemma ItemTold(t: Table, item: Item)
    requires TableOk(t) && item.FunctionCall?
    ensures var u, index := MergedItem(t, item), SlotFor(t, item.id, item.callId);
            && index < |u.tools|
            && Told(if index < |t.tools| then Some(t.tools[index]) else None, u.tools[index],
                    Final(item.id, item.callId, item.name, item.arguments))
  {
    EnsureToolFields(t, item.id, item.callId, item.name);
  }

  /** A merged item gives its slot its call id, its name and its final arguments, as far as it has them. */
  lemma ItemSends(t: Table, item: Item)
    requires TableOk(t) && item.FunctionCall?
    ensures Sends(t, MergedItem(t, item), Final(item.id, item.callId, item.name, item.arguments))
  {
    EnsureToolResolves(t, item.id, item.callId, item.name);
    EnsureToolOthers(t, item.id, item.callId, item.name);
    ItemTold(t, item);
  }

  lemma IdMore(ms: seq<Message>, m: Message)
    ensures IdAfter(ms + [m]) == if CallId(m).Some? then CallId(m).value
                                 else if |ms| > 0 then IdAfter(ms)
                                 else if FirstName(m).Some? then FirstName(m).value else ""
  {
    CollectedConcat(ms, [m], CallIdIn);
    CollectedOne(m, CallIdIn);
  }

  lemma NameMore(ms: seq<Message>, m: Message)
    ensures NameAfter(ms + [m]) == if m.Final? && m.name.Some? then m.name.value else NameAfter(ms)
  {
    CollectedConcat(ms, [m], NameIn);
    CollectedOne(m, NameIn);
  }

  lemma ToldMore(before: Option<Tool>, after: Tool, ms: seq<Message>, m: Message)
    requires Told(before, after, m) && FirstName(m).Some?
    requires if before.Some? then SlotIs(before.value, ms) else ms == []
    ensures SlotIs(after, ms + [m])
  {
    IdMore(ms, m);
    NameMore(ms, m);
    assert (ms + [m])[..|ms|] == ms;
  }

  lemma ForSnoc(ms: seq<Message>, m: Message, indexes: map<string, nat>, s: nat)
    ensures For(ms + [m], indexes, s) == For(ms, indexes, s) + (if Lands(m, indexes, s) then [m] else [])
  {
    assert (ms + [m])[..|ms|] == ms;
  }

  lemma {:induction false} ForStays(t: Table, u: Table, ms: seq<Message>, s: nat)
    requires Extends(t, u) && forall m | m in ms && FirstName(m).Some? :: FirstName(m).value in t.indexes
    ensures For(ms, u.indexes, s) == For(ms, t.indexes, s)
    ensures (forall k | k in t.indexes :: t.indexes[k] != s) ==> For(ms, t.indexes, s) == []
    decreases |ms|
  {
    if |ms| > 0 {
      ForStays(t, u, ms[..|ms| - 1], s);
    }
  }

  /** A message that has a name lands where the name resolves afterwards. */
  lemma LandsAt(t: Table, u: Table, m: Message, s: nat)
    requires Resolves(t, u, ItemId(m), CallId(m))
    ensures Lands(m, u.indexes, s) <==> FirstName(m).Some? && s == SlotFor(t, ItemId(m), CallId(m))
    ensures FirstName(m).Some? ==> FirstName(m).value in u.indexes
  {
  }

  lemma ResolvedExtends(t: Table, u: Table, item: Option<string>, call: Option<string>)
    requires Resolves(t, u, item, call)
    ensures Extends(t, u)
  {
  }

  /** The slot that the message is for. */
  lemma ToldSlot(t: Table, u: Table, ms: seq<Message>, m: Message)
    requires Sent(t, ms) && Sends(t, u, m) && FirstName(m).Some?
    ensures var s := SlotFor(t, ItemId(m), CallId(m)); s < |u.tools| && SlotIs(u.tools[s], For(ms, t.indexes, s) + [m])
  {
    var s := SlotFor(t, ItemId(m), CallId(m));
    if s < |t.tools| {
      assert exists k :: k in t.indexes && t.indexes[k] == s;
      ToldMore(Some(t.tools[s]), u.tools[s], For(ms, t.indexes, s), m);
    } else {
      ResolvedExtends(t, u, ItemId(m), CallId(m));
      ForStays(t, u, ms, s);
      ToldMore(None, u.tools[s], [], m);
    }
  }

  lemma MessageSent(t: Table, u: Table, ms: seq<Message>, m: Message)
    requires Sent(t, ms) && Sends(t, u, m)
    ensures Sent(u, ms + [m])
  {
    var index := SlotFor(t, ItemId(m), CallId(m));
    ResolvedExtends(t, u, ItemId(m), CallId(m));
    LandsAt(t, u, m, index);
    forall k | k in u.indexes
      ensures u.indexes[k] < |u.tools| && SlotIs(u.tools[u.indexes[k]], For(ms + [m], u.indexes, u.indexes[k]))
    {
      AliasSent(t, u, ms, m, k);
    }
  }

  lemma AliasSent(t: Table, u: Table, ms: seq<Message>, m: Message, k: string)
    requires Sent(t, ms) && Sends(t, u, m) && k in u.indexes
    ensures u.indexes[k] < |u.tools| && SlotIs(u.tools[u.indexes[k]], For(ms + [m], u.indexes, u.indexes[k]))
  {
    var s := u.indexes[k];
    ForNext(t, u, ms, m, s);
    if FirstName(m).Some? && s == SlotFor(t, ItemId(m), CallId(m)) {
      ToldSlot(t, u, ms, m);
    } else {
      OtherSlot(t, u, m, k);
    }
  }

  /** The messages for a slot, with one more. */
  lemma ForNext(t: Table, u: Table, ms: seq<Message>, m: Message, s: nat)
    requires Sent(t, ms) && Resolves(t, u, ItemId(m), CallId(m))
    ensures For(ms + [m], u.indexes, s)
         == if FirstName(m).Some? && s == SlotFor(t, ItemId(m), CallId(m)) then For(ms, t.indexes, s) + [m] else For(ms, t.indexes, s)
  {
    ResolvedExtends(t, u, ItemId(m), CallId(m));
    ForSnoc(ms, m, u.indexes, s);
    ForStays(t, u, ms, s);
    LandsAt(t, u, m, s);
    assert For(ms, t.indexes, s) + [] == For(ms, t.indexes, s);
  }

  lemma OtherSlot(t: Table, u: Table, m: Message, k: string)
    requires Resolves(t, u, ItemId(m), CallId(m)) && k in u.indexes
    requires forall x | x in t.indexes :: t.indexes[x] < |t.tools|
    requires FirstName(m).None? || u.indexes[k] != SlotFor(t, ItemId(m), CallId(m))
    ensures k in t.indexes && u.indexes[k] == t.indexes[k] && u.tools[u.indexes[k]] == t.tools[t.indexes[k]]
  {
  }

  lemma Regroup(a: seq<Message>, b: seq<Message>, c: seq<Message>)
    ensures (a + b) + c == a + (b + c)
  {
  }

  lemma {:induction false} ItemsSent(t: Table, items: seq<Item>, ms: seq<Message>)
    requires TableOk(t) && Sent(t, ms)
    ensures Sent(MergedItems(t, items), ms + Collected(items, MessagesOf))
    decreases |items|
  {
    if |items| == 0 {
      assert ms + [] == ms;
    } else {
      MergedItemKeeps(t, items[0]);
      ItemSent(t, items[0], ms);
      ItemsSent(MergedItem(t, items[0]), items[1..], ms + MessagesOf(items[0]));
      Regroup(ms, MessagesOf(items[0]), Collected(items[1..], MessagesOf));
    }
  }

  lemma ItemSent(t: Table, item: Item, ms: seq<Message>)
    requires TableOk(t) && Sent(t, ms)
    ensures Sent(MergedItem(t, item), ms + MessagesOf(item))
  {
    if item.FunctionCall? {
      ItemSends(t, item);
      MessageSent(t, MergedItem(t, item), ms, Final(item.id, item.callId, item.name, item.arguments));
    } else {
      assert ms + [] == ms;
    }
  }

  lemma InputSent(upper: char -> bool, a: Assembly, input: Input, ms: seq<Message>)
    requires TableOk(a.table) && Sent(a.table, ms)
    ensures Sent(OnInput(upper, a, input).state.table, ms + MessagesIn(input))
  {
    match input
    case ArgumentsDelta(itemId, delta) =>
      DeltaSends(a, itemId, delta);
      MessageSent(a.table, OnArguments(a, itemId, delta).state.table, ms, Delta(itemId, delta));
    case OutputItem(item) => ItemSent(a.table, item, ms);
    case ResponseCompleted(_, output) => ItemsSent(a.table, output, ms);
    case _ => assert ms + [] == ms;
  }

  lemma {:induction false} StreamSent(upper: char -> bool, a: Assembly, inputs: seq<Input>, ms: seq<Message>)
    requires TableOk(a.table) && Sent(a.table, ms)
    ensures Sent(OnStream(upper, a, inputs).state.table, ms + Collected(inputs, MessagesIn))
    decreases |inputs|
  {
    if |inputs| == 0 {
      assert ms + [] == ms;
    } else {
      InputKeeps(upper, a, inputs[0]);
      InputSent(upper, a, inputs[0], ms);
      StreamSent(upper, OnInput(upper, a, inputs[0]).state, inputs[1..], ms + MessagesIn(inputs[0]));
      Regroup(ms, MessagesIn(inputs[0]), Collected(inputs[1..], MessagesIn));
    }
  }

  /** Whatever is streamed, the slot that a name resolves to is what was sent under the names that resolve to it: the
      provider's last call id, the last name, and the last final arguments followed by the deltas after them. */
  lemma SlotsAreWhatWasSent(upper: char -> bool, inputs: seq<Input>, k: string)
    ensures var t, ms := OnStream(upper, START, inputs).state.table, Collected(inputs, MessagesIn);
            && (forall m | m in ms && FirstName(m).Some? :: FirstName(m).value in t.indexes)
            && (k in t.indexes ==>
                  t.indexes[k] < |t.tools| && SlotIs(t.tools[t.indexes[k]], For(ms, t.indexes, t.indexes[k])))
  {
    StreamSent(upper, START, inputs, []);
    assert [] + Collected(inputs, MessagesIn) == Collected(inputs, MessagesIn);
  }

  // ---- Numbers and text ----

  lemma {:induction false} TextReplays(upper: char -> bool, a: Assembly, inputs: seq<Input>, v: View)
    requires TableOk(a.table) && v.text == a.text && a.reasoning == Summary(upper, v.reasoning)
    ensures var step := OnStream(upper, a, inputs);
            && Numbered(step.events, a.seqNo, step.state.seqNo)
            && ReplayAll(v, step.events).text == step.state.text
            && Summary(upper, ReplayAll(v, step.events).reasoning) == step.state.reasoning
    decreases |inputs|
  {
    if |inputs| > 0 {
      InputKeeps(upper, a, inputs[0]);
      var first := OnInput(upper, a, inputs[0]);
      var rest := OnStream(upper, first.state, inputs[1..]);
      OneInputReplays(upper, a, inputs[0], v);
      TextReplays(upper, first.state, inputs[1..], ReplayAll(v, first.events));
      ReplayConcat(v, first.events, rest.events);
      NumberedConcat(first.events, rest.events, a.seqNo, first.state.seqNo, rest.state.seqNo);
    }
  }

  lemma OneInputReplays(upper: char -> bool, a: Assembly, input: Input, v: View)
    requires TableOk(a.table) && v.text == a.text && a.reasoning == Summary(upper, v.reasoning)
    ensures var step := OnInput(upper, a, input);
            && Numbered(step.events, a.seqNo, step.state.seqNo)
            && ReplayAll(v, step.events).text == step.state.text
            && Summary(upper, ReplayAll(v, step.events).reasoning) == step.state.reasoning
  {
    var step := OnInput(upper, a, input);
    if |step.events| > 0 {
      assert step.events == [step.events[0]] && step.events[1..] == [];
      assert ReplayAll(v, step.events) == Replay(v, step.events[0]);
      if input.ReasoningSummary? {
        SummarySnoc(upper, v.reasoning, input.delta);
      }
    }
  }

  // ---- Text, reasoning, usage and the end are what was sent ----

  function TextIn(input: Input): seq<string> {
    if input.OutputTextDelta? then [input.delta] else []
  }

  function ReasoningIn(input: Input): seq<string> {
    if input.ReasoningSummary? then [input.delta] else []
  }

  function UsageIn(input: Input): seq<Usage> {
    if input.ResponseCompleted? then Present(input.usage) else []
  }

  function FailureIn(input: Input): seq<string> {
    if input.ResponseFailed? then [input.detail] else []
  }

  function EndIn(input: Input): seq<Input> {
    if input.DoneMarker? || input.ResponseCompleted? then [input] else []
  }

  function FailureOf(e: StreamEvent): seq<string> {
    if e.Failed? then [e.detail] else []
  }

  /** From state `a` on, the inputs have led to this state and these events. */
  ghost predicate Received(a: Assembly, inputs: seq<Input>, step: Step) {
    && step.state.text == a.text + Concat(Collected(inputs, TextIn))
    && step.state.usage == Or(LastOf(Collected(inputs, UsageIn)), a.usage)
    && step.state.failed == Or(LastOf(Collected(inputs, FailureIn)), a.failed)
    && step.state.sawTerminal == (a.sawTerminal || Collected(inputs, EndIn) != [])
    && EventsSay(inputs, step.events)
  }

  /** The events pass on every text and reasoning that is not empty, and every failure. */
  ghost predicate EventsSay(inputs: seq<Input>, events: seq<StreamEvent>) {
    && Collected(events, TextOf) == Collected(Collected(inputs, TextIn), NonEmpty)
    && Collected(events, ReasoningOf) == Collected(Collected(inputs, ReasoningIn), NonEmpty)
    && Collected(events, FailureOf) == Collected(inputs, FailureIn)
  }

  lemma EventsSayThen(a: seq<Input>, first: seq<StreamEvent>, b: seq<Input>, second: seq<StreamEvent>)
    requires EventsSay(a, first) && EventsSay(b, second)
    ensures EventsSay(a + b, first + second)
  {
    CollectedConcat(a, b, TextIn);
    CollectedConcat(a, b, ReasoningIn);
    CollectedConcat(a, b, FailureIn);
    CollectedConcat(Collected(a, TextIn), Collected(b, TextIn), NonEmpty);
    CollectedConcat(Collected(a, ReasoningIn), Collected(b, ReasoningIn), NonEmpty);
    CollectedConcat(first, second, TextOf);
    CollectedConcat(first, second, ReasoningOf);
    CollectedConcat(first, second, FailureOf);
  }

  lemma ReceivedThen(c: Assembly, a: seq<Input>, first: Step, b: seq<Input>, second: Step)
    requires Received(c, a, first) && Received(first.state, b, second)
    ensures Received(c, a + b, Step(second.state, first.events + second.events))
  {
    CollectedConcat(a, b, TextIn);
    CollectedConcat(a, b, UsageIn);
    CollectedConcat(a, b, FailureIn);
    CollectedConcat(a, b, EndIn);
    AppendTwice(c.text, Collected(a, TextIn), Collected(b, TextIn));
    LastOfConcat(Collected(a, UsageIn), Collected(b, UsageIn), c.usage);
    LastOfConcat(Collected(a, FailureIn), Collected(b, FailureIn), c.failed);
    EventsSayThen(a, first.events, b, second.events);
  }

  lemma InputReceived(upper: char -> bool, a: Assembly, input: Input)
    requires TableOk(a.table)
    ensures Received(a, [input], OnInput(upper, a, input))
  {
    var step := OnInput(upper, a, input);
    CollectedOne(input, TextIn);
    CollectedOne(input, ReasoningIn);
    CollectedOne(input, UsageIn);
    CollectedOne(input, FailureIn);
    CollectedOne(input, EndIn);
    assert a.text + "" == a.text;
    if input.OutputTextDelta? {
      ConcatOne(input.delta);
      CollectedOne(input.delta, NonEmpty);
    } else if input.ReasoningSummary? {
      CollectedOne(input.delta, NonEmpty);
    }
    if |step.events| > 0 {
      CollectedOne(step.events[0], TextOf);
      CollectedOne(step.events[0], ReasoningOf);
      CollectedOne(step.events[0], FailureOf);
      assert step.events == [step.events[0]];
    }
  }

  /** Whatever is streamed, text and reasoning are passed on in order, and the last usage and failure are kept. */
  lemma {:induction false} StreamReceived(upper: char -> bool, a: Assembly, inputs: seq<Input>)
    requires TableOk(a.table)
    ensures Received(a, inputs, OnStream(upper, a, inputs))
    decreases |inputs|
  {
    if |inputs| == 0 {
      assert a.text + "" == a.text;
    } else {
      InputKeeps(upper, a, inputs[0]);
      var first := OnInput(upper, a, inputs[0]);
      InputReceived(upper, a, inputs[0]);
      StreamReceived(upper, first.state, inputs[1..]);
      ReceivedThen(a, [inputs[0]], first, inputs[1..], OnStream(upper, first.state, inputs[1..]));
      HeadAndTail(inputs);
    }
  }

  // ---- The result ----

  function CallOf(names: map<string, string>, tool: Tool): ToolCall {
    ToolCall(tool.id, Renamed(names, tool.name), OrEmptyObject(tool.arguments))
  }

  function Position(calls: seq<ToolCall>, id: string): (p: nat)
    ensures p <= |calls| && (p < |calls| ==> calls[p].id == id) && forall i | 0 <= i < p :: calls[i].id != id
  {
    if |calls| == 0 || calls[0].id == id then 0 else 1 + Position(calls[1..], id)
  }

  /** Add a call, or keep the longer arguments of the two that share an id. */
  function Added(calls: seq<ToolCall>, call: ToolCall): seq<ToolCall> {
    var p := Position(calls, call.id);
    if p == |calls| then calls + [call]
    else if Utf8Len(call.arguments) > Utf8Len(calls[p].arguments) then calls[p := calls[p].(arguments := call.arguments)]
    else calls
  }

  function Merged(names: map<string, string>, tools: seq<Tool>): seq<ToolCall>
    decreases |tools|
  {
    if |tools| == 0 then []
    else
      var n := |tools| - 1;
      if tools[n].name == "" then Merged(names, tools[..n]) else Added(Merged(names, tools[..n]), CallOf(names, tools[n]))
  }

  ghost predicate DistinctIds(calls: seq<ToolCall>) {
    forall i, j | 0 <= i < j < |calls| :: calls[i].id != calls[j].id
  }

  /** `tool` is a named slot with the call's id. */
  predicate Backs(tool: Tool, call: ToolCall) {
    tool.name != "" && tool.id == call.id
  }

  ghost predicate NameFrom(names: map<string, string>, tools: seq<Tool>, call: ToolCall) {
    exists t | t in tools :: Backs(t, call) && Renamed(names, t.name) == call.name
  }

  ghost predicate ArgumentsFrom(tools: seq<Tool>, call: ToolCall) {
    exists t | t in tools :: Backs(t, call) && OrEmptyObject(t.arguments) == call.arguments
  }

  ghost predicate LongestArguments(tools: seq<Tool>, call: ToolCall) {
    forall t | t in tools && Backs(t, call) :: Utf8Len(OrEmptyObject(t.arguments)) <= Utf8Len(call.arguments)
  }

  /** `call` stands for all named slots with its id: it has the name of one of them and the longest
      of their arguments. */
  ghost predicate Represents(names: map<string, string>, tools: seq<Tool>, call: ToolCall) {
    NameFrom(names, tools, call) && ArgumentsFrom(tools, call) && LongestArguments(tools, call)
  }

  lemma NameStays(names: map<string, string>, tools: seq<Tool>, tool: Tool, call: ToolCall, arguments: string)
    requires NameFrom(names, tools, call)
    ensures NameFrom(names, tools + [tool], call.(arguments := arguments))
  {
    var t :| t in tools && Backs(t, call) && Renamed(names, t.name) == call.name;
    assert t in tools + [tool] && Backs(t, call.(arguments := arguments));
  }

  lemma RepresentsMore(names: map<string, string>, tools: seq<Tool>, tool: Tool, call: ToolCall)
    requires Represents(names, tools, call)
    requires Backs(tool, call) ==> Utf8Len(OrEmptyObject(tool.arguments)) <= Utf8Len(call.arguments)
    ensures Represents(names, tools + [tool], call)
  {
    NameStays(names, tools, tool, call, call.arguments);
    var t :| t in tools && Backs(t, call) && OrEmptyObject(t.arguments) == call.arguments;
    assert t in tools + [tool];
  }

  lemma RepresentsLonger(names: map<string, string>, tools: seq<Tool>, tool: Tool, call: ToolCall)
    requires Represents(names, tools, call) && Backs(tool, call)
    requires Utf8Len(OrEmptyObject(tool.arguments)) > Utf8Len(call.arguments)
    ensures Represents(names, tools + [tool], call.(arguments := OrEmptyObject(tool.arguments)))
  {
    var longer := call.(arguments := OrEmptyObject(tool.arguments));
    NameStays(names, tools, tool, call, longer.arguments);
    assert tool in tools + [tool] && Backs(tool, longer);
    assert forall t | t in tools && Backs(t, longer) :: Backs(t, call);
  }

  ghost predicate HasId(calls: seq<ToolCall>, id: string) {
    exists i :: 0 <= i < |calls| && calls[i].id == id
  }

  lemma AddedIds(calls: seq<ToolCall>, call: ToolCall)
    requires DistinctIds(calls)
    ensures DistinctIds(Added(calls, call)) && HasId(Added(calls, call), call.id)
    ensures forall id :: HasId(calls, id) ==> HasId(Added(calls, call), id)
  {
    var p, added := Position(calls, call.id), Added(calls, call);
    assert added[p].id == call.id;
    forall id | HasId(calls, id)
      ensures HasId(added, id)
    {
      var i :| 0 <= i < |calls| && calls[i].id == id;
      assert added[i].id == id;
    }
  }

  /** One entry of the list after a further named slot was added. */
  lemma AddedEntry(names: map<string, string>, tools: seq<Tool>, last: Tool, calls: seq<ToolCall>, i: nat)
    requires last.name != "" && DistinctIds(calls) && i < |Added(calls, CallOf(names, last))|
    requires forall k | 0 <= k < |calls| :: Represents(names, tools, calls[k])
    requires forall t | t in tools && t.name != "" :: HasId(calls, t.id)
    ensures Represents(names, tools + [last], Added(calls, CallOf(names, last))[i])
  {
    var p, call := Position(calls, last.id), CallOf(names, last);
    if i == |calls| {
      NewEntry(names, tools, last, calls);
    } else if i == p && Utf8Len(call.arguments) > Utf8Len(calls[p].arguments) {
      RepresentsLonger(names, tools, last, calls[p]);
    } else {
      assert i != p ==> calls[i].id != last.id;
      RepresentsMore(names, tools, last, calls[i]);
    }
  }

  lemma {:induction false} NewEntry(names: map<string, string>, tools: seq<Tool>, last: Tool, calls: seq<ToolCall>)
    requires last.name != "" && Position(calls, last.id) == |calls|
    requires forall t | t in tools && t.name != "" :: HasId(calls, t.id)
    ensures Represents(names, tools + [last], CallOf(names, last))
  {
    assert last in tools + [last] && Backs(last, CallOf(names, last));
    forall t | t in tools && t.name != ""
      ensures t.id != last.id
    {
      var k :| 0 <= k < |calls| && calls[k].id == t.id;
    }
  }

  ghost predicate StandsForAll(names: map<string, string>, tools: seq<Tool>, calls: seq<ToolCall>) {
    && DistinctIds(calls)
    && (forall t | t in tools && t.name != "" :: HasId(calls, t.id))
    && (forall i | 0 <= i < |calls| :: Represents(names, tools, calls[i]))
  }

  /** The result lists distinct ids; every named slot has its id in the list, and each listed call
      carries the longest arguments among the slots with its id. */
  lemma {:induction false} MergedStandsForAll(names: map<string, string>, tools: seq<Tool>)
    ensures StandsForAll(names, tools, Merged(names, tools))
    decreases |tools|
  {
    if |tools| > 0 {
      var n := |tools| - 1;
      MergedStandsForAll(names, tools[..n]);
      assert tools == tools[..n] + [tools[n]];
      if tools[n].name == "" {
        UnnamedSlot(names, tools[..n], tools[n], Merged(names, tools[..n]));
      } else {
        NamedSlot(names, tools[..n], tools[n], Merged(names, tools[..n]));
      }
    }
  }

  /** `after` has the calls of `before` first, by id and name, with arguments that are no shorter. */
  ghost predicate Prolongs(before: seq<ToolCall>, after: seq<ToolCall>) {
    && |before| <= |after|
    && forall i | 0 <= i < |before| ::
         && after[i].id == before[i].id && after[i].name == before[i].name
         && Utf8Len(before[i].arguments) <= Utf8Len(after[i].arguments)
  }

  lemma AddedProlongs(calls: seq<ToolCall>, call: ToolCall)
    ensures Prolongs(calls, Added(calls, call))
  {
  }

  /** Later slots only add calls behind, or lengthen arguments: calls come in the order in which their ids first
      appear, with the name of the first slot. */
  lemma {:induction false} EarlierCallsStay(names: map<string, string>, tools: seq<Tool>, n: nat)
    requires n <= |tools|
    ensures Prolongs(Merged(names, tools[..n]), Merged(names, tools))
    decreases |tools|
  {
    if n == |tools| {
      assert tools[..n] == tools;
    } else {
      var rest, last := tools[..|tools| - 1], tools[|tools| - 1];
      EarlierCallsStay(names, rest, n);
      assert rest[..n] == tools[..n];
      AddedProlongs(Merged(names, rest), CallOf(names, last));
    }
  }

  lemma UnnamedSlot(names: map<string, string>, tools: seq<Tool>, last: Tool, calls: seq<ToolCall>)
    requires StandsForAll(names, tools, calls) && last.name == ""
    ensures StandsForAll(names, tools + [last], calls)
  {
    forall i | 0 <= i < |calls|
      ensures Represents(names, tools + [last], calls[i])
    {
      RepresentsMore(names, tools, last, calls[i]);
    }
  }

  lemma NamedSlotHasId(tools: seq<Tool>, last: Tool, added: seq<ToolCall>, t: Tool)
    requires t in tools + [last] && (t in tools && t.name != "" ==> HasId(added, t.id)) && HasId(added, last.id)
    ensures t.name != "" ==> HasId(added, t.id)
  {
  }

  lemma NamedSlot(names: map<string, string>, tools: seq<Tool>, last: Tool, calls: seq<ToolCall>)
    requires StandsForAll(names, tools, calls) && last.name != ""
    ensures StandsForAll(names, tools + [last], Added(calls, CallOf(names, last)))
  {
    var added := Added(calls, CallOf(names, last));
    AddedIds(calls, CallOf(names, last));
    forall t | t in tools + [last] && t.name != ""
      ensures HasId(added, t.id)
    {
      NamedSlotHasId(tools, last, added, t);
    }
    forall i: nat | i < |added|
      ensures Represents(names, tools + [last], added[i])
    {
      AddedEntry(names, tools, last, calls, i);
    }
  }

  function Finished(names: map<string, string>, a: Assembly): Outcome {
    if !a.sawTerminal then Truncated
    else Completed(if a.usage.Some? then a.usage.value else NO_USAGE, None, Merged(names, a.table.tools), a.text, a.reasoning, None)
  }

  /** The result is what the provider sent. It is completed if and only if an end was sent. Then its text is all text in
      order, the reasoning is the display form of all reasoning deltas that are not empty, the usage is the last one, and
      the calls stand for all named slots. */
  lemma ResultIsWhatWasSent(upper: char -> bool, names: map<string, string>, inputs: seq<Input>)
    ensures var state := OnStream(upper, START, inputs).state;
            var outcome := Finished(names, state);
            && (outcome.Completed? <==> exists input :: input in inputs && (input.DoneMarker? || input.ResponseCompleted?))
            && (outcome.Completed? ==>
                  && outcome.text == Concat(Collected(inputs, TextIn))
                  && outcome.reasoning == Summary(upper, Collected(Collected(inputs, ReasoningIn), NonEmpty))
                  && outcome.usage == (match LastOf(Collected(inputs, UsageIn)) case None => Usage(0, 0, 0) case Some(u) => u)
                  && outcome.stopReason == None && outcome.reasoningContent == None
                  && StandsForAll(names, state.table.tools, outcome.toolCalls))
  {
    var step := OnStream(upper, START, inputs);
    StreamReceived(upper, START, inputs);
    TextReplays(upper, START, inputs, NOTHING);
    ReasoningReplays(NOTHING, step.events);
    assert [] + Collected(step.events, ReasoningOf) == Collected(step.events, ReasoningOf);
    assert "" + Concat(Collected(inputs, TextIn)) == Concat(Collected(inputs, TextIn));
    MergedStandsForAll(names, step.state.table.tools);
    EndIsIn(inputs);
  }

  lemma {:induction false} EndIsIn(inputs: seq<Input>)
    ensures Collected(inputs, EndIn) != [] <==> exists input :: input in inputs && (input.DoneMarker? || input.ResponseCompleted?)
    decreases |inputs|
  {
    if |inputs| > 0 {
      EndIsIn(inputs[1..]);
      assert inputs[0] in inputs;
      assert forall input :: input in inputs <==> input == inputs[0] || input in inputs[1..];
    }
  }

  // ---- The assembler itself ----

  class OpenaiResponsesAssembler {
    const upper: char -> bool
    const toolNames: map<string, string>
    var text: string
    var reasoning: string
    var seqNo: nat
    var usage: Option<Usage>
    var failed: Option<string>
    var sawTerminal: bool
    var tools: seq<Tool>
    var toolIndexes: map<string, nat>

    function Now(): Assembly
      reads this
    {
      Assembly(text, reasoning, seqNo, usage, failed, sawTerminal, Table(tools, toolIndexes))
    }

    ghost predicate Valid()
      reads this
    {
      TableOk(Table(tools, toolIndexes))
    }

    constructor (upper: char -> bool, toolNames: map<string, string>)
      ensures Valid() && Now() == START && this.upper == upper && this.toolNames == toolNames
    {
      this.upper, this.toolNames := upper, toolNames;
      text, reasoning, seqNo, usage, failed, sawTerminal, tools, toolIndexes := "", "", 0, None, None, false, [], map[];
    }

    method IngestEvent(input: Input) returns (out: seq<StreamEvent>)
      requires Valid()
      modifies this
      ensures Valid() && Step(Now(), out) == OnInput(upper, old(Now()), input)
    {
      InputKeeps(upper, Now(), input);
      out := [];
      match input
      case DoneMarker => sawTerminal := true;
      case OutputTextDelta(delta) =>
        if delta != "" {
          text := text + delta;
          seqNo := seqNo + 1;
          out := [TextDelta(seqNo, delta, None)];
        }
      case ReasoningSummary(delta) =>
        if delta != "" {
          reasoning := AppendReasoningSummary(upper, reasoning, delta);
          seqNo := seqNo + 1;
          out := [ReasoningDelta(seqNo, delta)];
        }
      case ArgumentsDelta(itemId, delta) => out := FunctionArgumentsDelta(itemId, delta);
      case OutputItem(item) => MergeToolItem(item);
      case ResponseCompleted(counted, output) =>
        sawTerminal := true;
        if counted.Some? {
          usage := counted;
        }
        MergeToolItems(output);
      case ResponseFailed(detail) =>
        failed := Some(detail);
        out := [StreamEvent.Failed(detail)];
      case Ignored =>
    }

    method FunctionArgumentsDelta(itemId: Option<string>, delta: string) returns (out: seq<StreamEvent>)
      requires Valid()
      modifies this`tools, this`toolIndexes, this`seqNo
      ensures Valid() && Step(Now(), out) == OnArguments(old(Now()), itemId, delta)
    {
      ghost var found := EnsureTool(Table(tools, toolIndexes), itemId, None, None);
      var index := ResolveTool(itemId, None, None);
      assert Found(Table(tools, toolIndexes), index) == found;
      var tool := tools[index];
      tool := tool.(arguments := tool.arguments + delta);
      tools := tools[index := tool];
      seqNo := seqNo + 1;
      out := [ToolDelta(seqNo, index % U32_BOUND, Some(Alias(tool)), Some(tool.name), if delta == "" then None else Some(delta))];
    }

    method MergeToolItems(items: seq<Item>)
      requires Valid()
      modifies this`tools, this`toolIndexes
      ensures Valid() && Table(tools, toolIndexes) == MergedItems(old(Table(tools, toolIndexes)), items)
    {
      ghost var target := MergedItems(Table(tools, toolIndexes), items);
      for k := 0 to |items|
        invariant Valid() && MergedItems(Table(tools, toolIndexes), items[k..]) == target
      {
        assert items[k..][0] == items[k] && items[k..][1..] == items[k + 1..];
        MergeToolItem(items[k]);
      }
      assert items[|items|..] == [];
    }

    method MergeToolItem(item: Item)
      requires Valid()
      modifies this`tools, this`toolIndexes
      ensures Valid() && Table(tools, toolIndexes) == MergedItem(old(Table(tools, toolIndexes)), item)
    {
      MergedItemKeeps(Table(tools, toolIndexes), item);
      if item.OtherItem? {
        return;
      }
      var index := ResolveTool(item.id, item.callId, item.name);
      // The canonical id is the call id.
      if item.callId.Some? {
        tools := tools[index := tools[index].(id := item.callId.value)];
      }
      if item.arguments.Some? {
        tools := tools[index := tools[index].(arguments := item.arguments.value)];
      }
    }

    /** Resolve or create the slot of one provider call. */
    method ResolveTool(item: Option<string>, call: Option<string>, name: Option<string>) returns (index: nat)
      requires Valid()
      modifies this`tools, this`toolIndexes
      ensures Valid() && Found(Table(tools, toolIndexes), index) == EnsureTool(old(Table(tools, toolIndexes)), item, call, name)
    {
      EnsureToolKeeps(Table(tools, toolIndexes), item, call, name);
      var keys := [];
      if item.Some? && item.value != "" {
        keys := keys + [item.value];
      }
      if call.Some? && call.value != "" {
        keys := keys + [call.value];
      }
      assert keys == Keys(item, call);
      var known := FindKnown(keys);
      if known.Some? {
        FirstKnownIsKnown(toolIndexes, keys);
        index := toolIndexes[known.value];
        LinkOthers(keys, known.value, index);
        if name.Some? {
          tools := tools[index := tools[index].(name := name.value)];
        }
        return;
      }
      index := |tools|;
      tools := tools + [Tool(FreshId(item, call, index), if name.Some? then name.value else "", "", keys)];
      InsertKeys(keys, index);
    }

    method FindKnown(keys: seq<string>) returns (known: Option<string>)
      ensures known == FirstKnown(toolIndexes, keys)
    {
      for k := 0 to |keys|
        invariant FirstKnown(toolIndexes, keys) == FirstKnown(toolIndexes, keys[k..])
      {
        if keys[k] in toolIndexes {
          return Some(keys[k]);
        }
        assert keys[k..][1..] == keys[k + 1..];
      }
      assert keys[|keys|..] == [];
      return None;
    }

    method LinkOthers(keys: seq<string>, key: string, index: nat)
      requires index < |tools|
      modifies this`tools, this`toolIndexes
      ensures Table(tools, toolIndexes) == Linked(old(Table(tools, toolIndexes)), keys, key, index)
      ensures index < |tools|
    {
      ghost var target := Linked(Table(tools, toolIndexes), keys, key, index);
      for k := 0 to |keys|
        invariant index < |tools| && Linked(Table(tools, toolIndexes), keys[k..], key, index) == target
      {
        assert keys[k..][0] == keys[k] && keys[k..][1..] == keys[k + 1..];
        var other := keys[k];
        if other != key {
          if other !in toolIndexes {
            toolIndexes := toolIndexes[other := index];
          }
          tools := tools[index := tools[index].(aliases := tools[index].aliases + [other])];
        }
      }
      assert keys[|keys|..] == [];
    }

    method InsertKeys(keys: seq<string>, index: nat)
      modifies this`toolIndexes
      ensures toolIndexes == Inserted(old(toolIndexes), keys, index)
    {
      for k := 0 to |keys|
        invariant Inserted(toolIndexes, keys[k..], index) == Inserted(old(toolIndexes), keys, index)
      {
        assert keys[k..][0] == keys[k] && keys[k..][1..] == keys[k + 1..];
        toolIndexes := toolIndexes[keys[k] := index];
      }
      assert keys[|keys|..] == [];
    }

    method Finish() returns (outcome: Outcome)
      ensures outcome == Finished(toolNames, Now())
      ensures outcome.Completed? ==> DistinctIds(outcome.toolCalls)
      ensures outcome.Completed? <==> sawTerminal
      ensures outcome.Completed? ==>
                && outcome.text == text && outcome.reasoning == reasoning
                && outcome.usage == (if usage.Some? then usage.value else Usage(0, 0, 0))
    {
      if !sawTerminal {
        return Truncated;
      }
      var merged := [];
      for k := 0 to |tools|
        invariant merged == Merged(toolNames, tools[..k])
      {
        assert tools[..k + 1][..k] == tools[..k];
        var tool := tools[k];
        if tool.name != "" {
          merged := AddCall(merged, ToolCall(tool.id, Renamed(toolNames, tool.name), OrEmptyObject(tool.arguments)));
        }
      }
      assert tools[..|tools|] == tools;
      MergedStandsForAll(toolNames, tools);
      return Completed(if usage.Some? then usage.value else NO_USAGE, None, merged, text, reasoning, None);
    }

    static method AddCall(calls: seq<ToolCall>, call: ToolCall) returns (merged: seq<ToolCall>)
      ensures merged == Added(calls, call)
    {
      for k := 0 to |calls|
        invariant forall i | 0 <= i < k :: calls[i].id != call.id
      {
        if calls[k].id == call.id {
          assert Position(calls, call.id) == k;
          if Utf8Len(call.arguments) > Utf8Len(calls[k].arguments) {
            return calls[k := calls[k].(arguments := call.arguments)];
          }
          return calls;
        }
      }
      return calls + [call];
    }
  }
}
