/** Normalized stream events, and what a consumer rebuilds from them. */
module StreamTypes {
  import opened Common
  import opened Sse

  datatype Usage = Usage(input: nat, output: nat, cache: nat)

  datatype StreamEvent =
    | TextDelta(sequence: nat, text: string, usage: Option<Usage>)
    | ReasoningDelta(sequence: nat, text: string)
    | ToolDelta(sequence: nat, index: nat, id: Option<string>, name: Option<string>, arguments: Option<string>)
    | Failed(detail: string)

  datatype ToolCall = ToolCall(id: string, name: string, arguments: string)

  datatype Outcome =
    | Truncated
    | Completed(usage: Usage, stopReason: Option<string>, toolCalls: seq<ToolCall>, text: string, reasoning: string,
                reasoningContent: Option<string>)

  const NO_USAGE: Usage := Usage(0, 0, 0)

  /** The name under which a tool is known to the caller. */
  function Renamed(names: map<string, string>, wire: string): string {
    if wire in names then names[wire] else wire
  }

  function OrEmptyObject(arguments: string): string {
    if arguments == "" then "{}" else arguments
  }

  // ---- Text lengths and the reasoning summary ----

  /** `str::len`: bytes of the UTF-8 form (section 3 of RFC 3629). */
  function Utf8Len(s: string): nat {
    if s == "" then 0
    else
      var n := s[0] as int;
      (if n < 0x80 then 1 else if n < 0x800 then 2 else if n < 0x1_0000 then 3 else 4) + Utf8Len(s[1..])
  }

  /** A long delta whose first word is capitalized starts a new summary sentence. */
  predicate LooksLikeSentence(upper: char -> bool, delta: string) {
    Utf8Len(delta) >= 20 && TrimStart(delta) != "" && upper(TrimStart(delta)[0])
  }

  predicate BreaksBefore(upper: char -> bool, previous: string, delta: string) {
    && previous != "" && delta != "" && !IsWhitespace(delta[0]) && !IsWhitespace(previous[|previous| - 1])
    && LooksLikeSentence(upper, delta)
  }

  function AppendReasoning(upper: char -> bool, previous: string, delta: string): string {
    (if BreaksBefore(upper, previous, delta) then previous + "\n" else previous) + delta
  }

  /** The display form of a list of reasoning deltas. */
  function Summary(upper: char -> bool, deltas: seq<string>): string
    decreases |deltas|
  {
    if |deltas| == 0 then "" else AppendReasoning(upper, Summary(upper, deltas[..|deltas| - 1]), deltas[|deltas| - 1])
  }

  function Concat(deltas: seq<string>): string
    decreases |deltas|
  {
    if |deltas| == 0 then "" else Concat(deltas[..|deltas| - 1]) + deltas[|deltas| - 1]
  }

  /** The deltas with a line break in front of those marked. */
  function Interleaved(deltas: seq<string>, breaks: seq<bool>): string
    requires |breaks| == |deltas|
    decreases |deltas|
  {
    if |deltas| == 0 then ""
    else
      var n := |deltas| - 1;
      Interleaved(deltas[..n], breaks[..n]) + (if breaks[n] then "\n" else "") + deltas[n]
  }

  /** `delta` starts a new line behind `previous`: neither is empty, no blank is where they meet, and the delta is at
      least 20 bytes long and begins with an upper-case letter. */
  predicate StartsLine(upper: char -> bool, previous: string, delta: string) {
    && previous != "" && delta != "" && !IsWhitespace(delta[0]) && !IsWhitespace(previous[|previous| - 1])
    && Utf8Len(delta) >= 20 && upper(delta[0])
  }

  /** The breaks are in front of exactly the deltas that start a line. */
  ghost predicate BreaksAtLines(upper: char -> bool, deltas: seq<string>, breaks: seq<bool>)
    requires |breaks| == |deltas|
  {
    forall i | 0 <= i < |breaks| :: breaks[i] == StartsLine(upper, Interleaved(deltas[..i], breaks[..i]), deltas[i])
  }

  lemma OneMoreBreak(upper: char -> bool, deltas: seq<string>, before: seq<bool>, last: bool)
    requires |deltas| == |before| + 1 && BreaksAtLines(upper, deltas[..|before|], before)
    requires last == StartsLine(upper, Interleaved(deltas[..|before|], before), deltas[|before|])
    ensures BreaksAtLines(upper, deltas, before + [last])
  {
    var n, breaks := |before|, before + [last];
    forall i | 0 <= i < |breaks|
      ensures breaks[i] == StartsLine(upper, Interleaved(deltas[..i], breaks[..i]), deltas[i])
    {
      assert breaks[..i] == before[..i];
      assert i < n ==> deltas[..n][..i] == deltas[..i] && before[i] == breaks[i];
      assert before[..n] == before;
    }
  }

  lemma BreaksAtStarts(upper: char -> bool, previous: string, delta: string)
    ensures BreaksBefore(upper, previous, delta) == StartsLine(upper, previous, delta)
  {
  }

  lemma {:induction false} NoBreaks(deltas: seq<string>, breaks: seq<bool>)
    requires |breaks| == |deltas| && forall i | 0 <= i < |breaks| :: !breaks[i]
    ensures Interleaved(deltas, breaks) == Concat(deltas)
    decreases |deltas|
  {
    if |deltas| > 0 {
      NoBreaks(deltas[..|deltas| - 1], breaks[..|deltas| - 1]);
    }
  }

  lemma InterleavedSnoc(deltas: seq<string>, before: seq<bool>, last: bool)
    requires |deltas| == |before| + 1
    ensures Interleaved(deltas, before + [last])
         == Interleaved(deltas[..|before|], before) + (if last then "\n" else "") + deltas[|before|]
  {
    assert (before + [last])[..|before|] == before;
  }

  lemma SummaryNext(upper: char -> bool, deltas: seq<string>, before: seq<bool>)
    requires |deltas| == |before| + 1 && Summary(upper, deltas[..|before|]) == Interleaved(deltas[..|before|], before)
    ensures var last := StartsLine(upper, Interleaved(deltas[..|before|], before), deltas[|before|]);
            Summary(upper, deltas) == Interleaved(deltas, before + [last])
  {
    var previous := Interleaved(deltas[..|before|], before);
    BreaksAtStarts(upper, previous, deltas[|before|]);
    InterleavedSnoc(deltas, before, StartsLine(upper, previous, deltas[|before|]));
    assert previous + "" == previous;
  }

  lemma {:induction false} LineBreaks(upper: char -> bool, deltas: seq<string>) returns (breaks: seq<bool>)
    ensures |breaks| == |deltas| && Summary(upper, deltas) == Interleaved(deltas, breaks)
    ensures BreaksAtLines(upper, deltas, breaks)
    decreases |deltas|
  {
    if |deltas| == 0 {
      breaks := [];
    } else {
      var before := LineBreaks(upper, deltas[..|deltas| - 1]);
      var last := StartsLine(upper, Interleaved(deltas[..|before|], before), deltas[|before|]);
      SummaryNext(upper, deltas, before);
      OneMoreBreak(upper, deltas, before, last);
      breaks := before + [last];
    }
  }

  /** The display form is the verbatim text with line breaks inserted, each before a delta that starts a line. */
  lemma SummaryAddsOnlyBreaks(upper: char -> bool, deltas: seq<string>) returns (breaks: seq<bool>)
    ensures |breaks| == |deltas| && (|breaks| > 0 ==> !breaks[0])
    ensures Summary(upper, deltas) == Interleaved(deltas, breaks)
    ensures BreaksAtLines(upper, deltas, breaks)
    ensures (forall i | 0 <= i < |breaks| :: !breaks[i]) ==> Summary(upper, deltas) == Concat(deltas)
  {
    breaks := LineBreaks(upper, deltas);
    if |breaks| > 0 {
      assert Interleaved(deltas[..0], breaks[..0]) == "";
    }
    if forall i | 0 <= i < |breaks| :: !breaks[i] {
      NoBreaks(deltas, breaks);
    }
  }

  lemma {:induction false} Utf8LenConcat(a: string, b: string)
    ensures Utf8Len(a + b) == Utf8Len(a) + Utf8Len(b)
  {
    if a == "" {
      assert a + b == b;
    } else {
      assert (a + b)[1..] == a[1..] + b;
      Utf8LenConcat(a[1..], b);
    }
  }

  lemma {:induction false} Utf8LenBounds(s: string)
    ensures |s| <= Utf8Len(s) <= 4 * |s|
    ensures (forall i | 0 <= i < |s| :: s[i] as int < 0x80) ==> Utf8Len(s) == |s|
  {
    if s != "" {
      Utf8LenBounds(s[1..]);
    }
  }

  lemma SummarySnoc(upper: char -> bool, deltas: seq<string>, delta: string)
    ensures Summary(upper, deltas + [delta]) == AppendReasoning(upper, Summary(upper, deltas), delta)
    ensures Concat(deltas + [delta]) == Concat(deltas) + delta
  {
    assert (deltas + [delta])[..|deltas|] == deltas;
  }

  // ---- What was sent, in order ----

  /** What `of` finds in the elements, in order. */
  function Collected<T, U>(xs: seq<T>, of: T -> seq<U>): seq<U>
    decreases |xs|
  {
    if |xs| == 0 then [] else of(xs[0]) + Collected(xs[1..], of)
  }

  lemma {:induction false} CollectedConcat<T, U>(a: seq<T>, b: seq<T>, of: T -> seq<U>)
    ensures Collected(a + b, of) == Collected(a, of) + Collected(b, of)
    decreases |a|
  {
    if |a| == 0 {
      assert a + b == b;
    } else {
      assert (a + b)[1..] == a[1..] + b;
      CollectedConcat(a[1..], b, of);
    }
  }

  lemma CollectedOne<T, U>(x: T, of: T -> seq<U>)
    ensures Collected([x], of) == of(x)
  {
    assert [x][1..] == [];
  }

  lemma HeadAndTail<T>(xs: seq<T>)
    requires |xs| > 0
    ensures [xs[0]] + xs[1..] == xs
  {
  }

  function LastOf<T>(xs: seq<T>): Option<T> {
    if |xs| == 0 then None else Some(xs[|xs| - 1])
  }

  lemma {:induction false} ConcatConcat(a: seq<string>, b: seq<string>)
    ensures Concat(a + b) == Concat(a) + Concat(b)
    decreases |b|
  {
    if |b| == 0 {
      assert a + b == a;
    } else {
      var n := |b| - 1;
      assert (a + b)[..|a| + n] == a + b[..n];
      ConcatConcat(a, b[..n]);
    }
  }

  lemma AppendTwice(base: string, a: seq<string>, b: seq<string>)
    ensures base + Concat(a + b) == (base + Concat(a)) + Concat(b)
  {
    ConcatConcat(a, b);
  }

  lemma LastOfConcat<T>(a: seq<T>, b: seq<T>, base: Option<T>)
    ensures Or(LastOf(a + b), base) == Or(LastOf(b), Or(LastOf(a), base))
  {
  }

  lemma ConcatOne(s: string)
    ensures Concat([s]) == s
  {
    assert [s][..0] == [];
  }

  function NonEmpty(s: string): seq<string> {
    if s == "" then [] else [s]
  }

  function Present<T>(x: Option<T>): seq<T> {
    if x.Some? then [x.value] else []
  }

  /** The parts of the events: text without a usage report, reasoning, and usage reports. */
  function TextOf(e: StreamEvent): seq<string> {
    if e.TextDelta? && e.usage.None? then [e.text] else []
  }

  function ReasoningOf(e: StreamEvent): seq<string> {
    if e.ReasoningDelta? then [e.text] else []
  }

  function UsageOf(e: StreamEvent): seq<Usage> {
    if e.TextDelta? then Present(e.usage) else []
  }

  // ---- What a consumer rebuilds from the events ----

  datatype Slot = Slot(id: Option<string>, name: Option<string>, arguments: string)

  const EMPTY_SLOT: Slot := Slot(None, None, "")

  /** `reasoning` is the list of reasoning deltas. */
  datatype View = View(text: string, reasoning: seq<string>, slots: seq<Slot>)

  const NOTHING: View := View("", [], [])

  function Grown(slots: seq<Slot>, index: nat): (r: seq<Slot>)
    ensures |r| > index && slots <= r
    decreases index + 1 - |slots|
  {
    if |slots| <= index then Grown(slots + [EMPTY_SLOT], index) else slots
  }

  lemma {:induction false} GrownLength(slots: seq<Slot>, index: nat)
    ensures |Grown(slots, index)| == Max(|slots|, index + 1)
    decreases index + 1 - |slots|
  {
    if |slots| <= index {
      GrownLength(slots + [EMPTY_SLOT], index);
    }
  }

  function Replay(v: View, e: StreamEvent): View {
    match e
    case TextDelta(_, text, _) => v.(text := v.text + text)
    case ReasoningDelta(_, text) => v.(reasoning := v.reasoning + [text])
    case ToolDelta(_, index, id, name, arguments) =>
      var slots := Grown(v.slots, index);
      v.(slots := slots[index := Slot(id, name, slots[index].arguments + (if arguments.Some? then arguments.value else ""))])
    case Failed(_) => v
  }

  function ReplayAll(v: View, events: seq<StreamEvent>): View
    decreases |events|
  {
    if |events| == 0 then v else ReplayAll(Replay(v, events[0]), events[1..])
  }

  lemma {:induction false} ReplayConcat(v: View, a: seq<StreamEvent>, b: seq<StreamEvent>)
    ensures ReplayAll(v, a + b) == ReplayAll(ReplayAll(v, a), b)
    decreases |a|
  {
    if |a| == 0 {
      assert a + b == b;
    } else {
      assert (a + b)[1..] == a[1..] + b;
      ReplayConcat(Replay(v, a[0]), a[1..], b);
    }
  }

  /** A consumer's reasoning deltas are those of the events. */
  lemma {:induction false} ReasoningReplays(v: View, events: seq<StreamEvent>)
    ensures ReplayAll(v, events).reasoning == v.reasoning + Collected(events, ReasoningOf)
    decreases |events|
  {
    if |events| > 0 {
      ReasoningReplays(Replay(v, events[0]), events[1..]);
    }
  }

  /** The events carry the sequence numbers `from + 1` to `to`; a failure carries none. */
  predicate Numbered(events: seq<StreamEvent>, from: nat, to: nat)
    decreases |events|
  {
    if |events| == 0 then from == to
    else if events[0].Failed? then Numbered(events[1..], from, to)
    else events[0].sequence == from + 1 && Numbered(events[1..], from + 1, to)
  }

  lemma {:induction false} NumberedConcat(a: seq<StreamEvent>, b: seq<StreamEvent>, from: nat, mid: nat, to: nat)
    requires Numbered(a, from, mid) && Numbered(b, mid, to)
    ensures Numbered(a + b, from, to)
    decreases |a|
  {
    if |a| == 0 {
      assert a + b == b;
    } else {
      assert (a + b)[1..] == a[1..] + b;
      NumberedConcat(a[1..], b, if a[0].Failed? then from else from + 1, mid, to);
    }
  }

  method AppendReasoningSummary(upper: char -> bool, previous: string, delta: string) returns (joined: string)
    ensures joined == AppendReasoning(upper, previous, delta)
  {
    joined := previous;
    if previous != "" && delta != "" && !IsWhitespace(delta[0]) && !IsWhitespace(previous[|previous| - 1]) {
      if LooksLikeSentence(upper, delta) {
        joined := joined + "\n";
      }
    }
    joined := joined + delta;
  }
}
