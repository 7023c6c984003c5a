/** The incremental parser of server-sent events: bytes arrive in chunks cut anywhere, and the
    frames depend only on the bytes. */
module Sse {
  import opened Text

  const NEWLINE: byte := 10

  datatype Frame = Frame(event: string, data: string)

  /** `char::is_whitespace`: the Unicode White_Space property. */
  predicate IsWhitespace(c: char) {
    var n := c as int;
    || 0x09 <= n <= 0x0D || n == 0x20 || n == 0x85 || n == 0xA0 || n == 0x1680 || 0x2000 <= n <= 0x200A
    || n == 0x2028 || n == 0x2029 || n == 0x202F || n == 0x205F || n == 0x3000
  }

  function TrimStart(s: string): string {
    if |s| > 0 && IsWhitespace(s[0]) then TrimStart(s[1..]) else s
  }

  function TrimEnd(s: string): string {
    if |s| > 0 && IsWhitespace(s[|s| - 1]) then TrimEnd(s[..|s| - 1]) else s
  }

  function Trim(s: string): string {
    TrimEnd(TrimStart(s))
  }

  function StripCr(line: string): string {
    if |line| > 0 && line[|line| - 1] == '\r' then line[..|line| - 1] else line
  }

  function Join(lines: seq<string>): string
    decreases |lines|
  {
    if |lines| == 0 then "" else if |lines| == 1 then lines[0] else lines[0] + "\n" + Join(lines[1..])
  }

  // ---- The parser as an automaton over single bytes ----

  datatype State = State(buffer: Bytes, event: string, data: seq<string>)
  datatype Parsed = Parsed(state: State, frames: seq<Frame>)

  const START: State := State([], "", [])

  /** What one complete line does; the buffer is empty afterwards. */
  function OnLine(s: State, raw: string): Parsed {
    var line := StripCr(raw);
    if line == "" then
      if s.data != [] || s.event != "" then Parsed(State([], "", []), [Frame(s.event, Join(s.data))])
      else Parsed(State([], "", []), [])
    else if "event:" <= line then Parsed(State([], Trim(line[6..]), s.data), [])
    else if "data:" <= line then Parsed(State([], s.event, s.data + [TrimStart(line[5..])]), [])
    else Parsed(State([], s.event, s.data), [])
  }

  function OnByte(decode: Bytes -> string, s: State, b: byte): Parsed {
    if b == NEWLINE then OnLine(s, decode(s.buffer)) else Parsed(s.(buffer := s.buffer + [b]), [])
  }

  function Feed(decode: Bytes -> string, s: State, input: Bytes): Parsed
    decreases |input|
  {
    if |input| == 0 then Parsed(s, [])
    else
      var first := OnByte(decode, s, input[0]);
      var rest := Feed(decode, first.state, input[1..]);
      Parsed(rest.state, first.frames + rest.frames)
  }

  lemma Regroup(a: seq<Frame>, b: seq<Frame>, c: seq<Frame>)
    ensures a + (b + c) == (a + b) + c
  {
  }

  lemma {:induction false} FeedConcat(decode: Bytes -> string, s: State, a: Bytes, b: Bytes)
    ensures var first := Feed(decode, s, a);
            var rest := Feed(decode, first.state, b);
            Feed(decode, s, a + b) == Parsed(rest.state, first.frames + rest.frames)
    decreases |a|
  {
    if |a| == 0 {
      assert a + b == b;
    } else {
      var step := OnByte(decode, s, a[0]);
      FeedConcat(decode, step.state, a[1..], b);
      assert (a + b)[1..] == a[1..] + b;
      var middle := Feed(decode, step.state, a[1..]);
      var rest := Feed(decode, middle.state, b);
      Regroup(step.frames, middle.frames, rest.frames);
    }
  }

  lemma FirstByte(buffer: Bytes, a: Bytes)
    requires |a| > 0
    ensures (buffer + [a[0]]) + a[1..] == buffer + a
  {
  }

  /** Bytes without a line end only fill the buffer. */
  lemma {:induction false} FeedFills(decode: Bytes -> string, s: State, a: Bytes)
    requires NEWLINE !in a
    ensures Feed(decode, s, a) == Parsed(s.(buffer := s.buffer + a), [])
    decreases |a|
  {
    if |a| == 0 {
      assert s.buffer + a == s.buffer;
    } else {
      FeedFills(decode, s.(buffer := s.buffer + [a[0]]), a[1..]);
      FirstByte(s.buffer, a);
    }
  }

  lemma FeedQuiet(decode: Bytes -> string, s: State, line: Bytes, filled: State, tail: Bytes)
    requires Feed(decode, s, line) == Parsed(filled, [])
    ensures Feed(decode, s, line + tail) == Feed(decode, filled, tail)
  {
    FeedConcat(decode, s, line, tail);
    assert [] + Feed(decode, filled, tail).frames == Feed(decode, filled, tail).frames;
  }

  lemma BufferIsDropped(s: State, buffer: Bytes, raw: string)
    ensures OnLine(s.(buffer := buffer), raw) == OnLine(s, raw)
  {
  }

  lemma FeedLine(decode: Bytes -> string, s: State, line: Bytes, rest: Bytes)
    requires NEWLINE !in line
    ensures var after := OnLine(s, decode(s.buffer + line));
            var last := Feed(decode, after.state, rest);
            Feed(decode, s, line + [NEWLINE] + rest) == Parsed(last.state, after.frames + last.frames)
  {
    var filled := s.(buffer := s.buffer + line);
    FeedFills(decode, s, line);
    FeedQuiet(decode, s, line, filled, [NEWLINE] + rest);
    SplitAtNewline(line, rest);
    FeedNewline(decode, filled, rest);
    BufferIsDropped(s, filled.buffer, decode(filled.buffer));
  }

  lemma FeedNewline(decode: Bytes -> string, s: State, rest: Bytes)
    ensures var after := OnLine(s, decode(s.buffer));
            var last := Feed(decode, after.state, rest);
            Feed(decode, s, [NEWLINE] + rest) == Parsed(last.state, after.frames + last.frames)
  {
    assert ([NEWLINE] + rest)[1..] == rest;
  }

  lemma SplitAtNewline(line: Bytes, rest: Bytes)
    ensures line + [NEWLINE] + rest == line + ([NEWLINE] + rest)
  {
  }

  // ---- What each line means ----

  predicate AllBlank(s: string) {
    forall i | 0 <= i < |s| :: IsWhitespace(s[i])
  }

  /** An optional carriage return, which is not part of `text`. */
  predicate Ending(text: string, ending: string) {
    ending == "\r" || (ending == "" && (text == "" || text[|text| - 1] != '\r'))
  }

  lemma StripEnding(text: string, ending: string)
    requires Ending(text, ending)
    ensures StripCr(text + ending) == text
  {
    assert text + "" == text;
  }

  lemma {:induction false} TrimStartOf(blanks: string, x: string)
    requires AllBlank(blanks) && (x == "" || !IsWhitespace(x[0]))
    ensures TrimStart(blanks + x) == x
  {
    if blanks == "" {
      assert blanks + x == x;
    } else {
      assert (blanks + x)[1..] == blanks[1..] + x;
      TrimStartOf(blanks[1..], x);
    }
  }

  lemma {:induction false} TrimEndOf(x: string, blanks: string)
    requires AllBlank(blanks) && (x == "" || !IsWhitespace(x[|x| - 1]))
    ensures TrimEnd(x + blanks) == x
    decreases |blanks|
  {
    if blanks == "" {
      assert x + blanks == x;
    } else {
      assert (x + blanks)[..|x + blanks| - 1] == x + blanks[..|blanks| - 1];
      TrimEndOf(x, blanks[..|blanks| - 1]);
    }
  }

  lemma OneLineFed(decode: Bytes -> string, s: State, line: Bytes)
    requires s.buffer == [] && NEWLINE !in line
    ensures Feed(decode, s, line + [NEWLINE]) == OnLine(s, decode(line))
  {
    FeedLine(decode, s, line, []);
    assert line + [NEWLINE] + [] == line + [NEWLINE] && [] + line == line;
    var after := OnLine(s, decode(line));
    assert after.frames + [] == after.frames;
  }

  /** A data line adds what follows the blanks behind the colon, if there are any. */
  lemma DataLineMeans(decode: Bytes -> string, s: State, line: Bytes, blanks: string, x: string, ending: string)
    requires s.buffer == [] && NEWLINE !in line && decode(line) == "data:" + (blanks + x) + ending
    requires AllBlank(blanks) && (x == "" || !IsWhitespace(x[0])) && Ending("data:" + (blanks + x), ending)
    ensures Feed(decode, s, line + [NEWLINE]) == Parsed(State([], s.event, s.data + [x]), [])
  {
    OneLineFed(decode, s, line);
    var text := "data:" + (blanks + x);
    StripEnding(text, ending);
    assert text[..5] == "data:" && text[5..] == blanks + x && text[0] == 'd';
    TrimStartOf(blanks, x);
  }

  /** An event line sets the name, without blanks around it. */
  lemma EventLineMeans(decode: Bytes -> string, s: State, line: Bytes, before: string, x: string, after: string, ending: string)
    requires s.buffer == [] && NEWLINE !in line && decode(line) == "event:" + (before + (x + after)) + ending
    requires AllBlank(before) && AllBlank(after) && Ending("event:" + (before + (x + after)), ending)
    requires x != "" && !IsWhitespace(x[0]) && !IsWhitespace(x[|x| - 1])
    ensures Feed(decode, s, line + [NEWLINE]) == Parsed(State([], x, s.data), [])
  {
    OneLineFed(decode, s, line);
    var text := "event:" + (before + (x + after));
    StripEnding(text, ending);
    assert text[..6] == "event:" && text[6..] == before + (x + after);
    TrimStartOf(before, x + after);
    TrimEndOf(x, after);
  }

  /** The empty line ends a frame if there is anything in it. */
  lemma EmptyLineMeans(decode: Bytes -> string, s: State, line: Bytes)
    requires s.buffer == [] && NEWLINE !in line && (decode(line) == "" || decode(line) == "\r")
    ensures Feed(decode, s, line + [NEWLINE])
         == Parsed(START, if s.event == "" && s.data == [] then [] else [Frame(s.event, Join(s.data))])
  {
    OneLineFed(decode, s, line);
  }

  /** Every other line, such as a comment, is ignored. */
  lemma OtherLinesAreIgnored(decode: Bytes -> string, s: State, line: Bytes)
    requires s.buffer == [] && NEWLINE !in line && decode(line) != "" && decode(line) != "\r"
    requires !("data:" <= decode(line)) && !("event:" <= decode(line))
    ensures Feed(decode, s, line + [NEWLINE]) == Parsed(s, [])
  {
    OneLineFed(decode, s, line);
    var raw := decode(line);
    if raw[|raw| - 1] == '\r' {
      assert "data:" <= StripCr(raw) ==> "data:" <= raw;
      assert "event:" <= StripCr(raw) ==> "event:" <= raw;
    }
  }

  function Behind(frames: seq<Frame>, p: Parsed): Parsed {
    Parsed(p.state, frames + p.frames)
  }

  lemma LineStep(decode: Bytes -> string, s: State, buffer: Bytes, idx: nat, out: seq<Frame>)
    requires s.buffer == [] && idx < |buffer| && buffer[idx] == NEWLINE && NEWLINE !in buffer[..idx]
    ensures var after := OnLine(s, decode(buffer[..idx]));
            Behind(out, Feed(decode, s, buffer)) == Behind(out + after.frames, Feed(decode, after.state, buffer[idx + 1..]))
  {
    var line, rest := buffer[..idx], buffer[idx + 1..];
    var after := OnLine(s, decode(line));
    assert buffer == line + [NEWLINE] + rest;
    FeedLine(decode, s, line, rest);
    assert [] + line == line;
    var last := Feed(decode, after.state, rest);
    Regroup(out, after.frames, last.frames);
  }

  lemma NoLineLeft(decode: Bytes -> string, s: State, buffer: Bytes, out: seq<Frame>)
    requires s.buffer == [] && NEWLINE !in buffer
    ensures Behind(out, Feed(decode, s, buffer)) == Parsed(s.(buffer := buffer), out)
  {
    FeedFills(decode, s, buffer);
    assert [] + buffer == buffer && out + [] == out;
  }

  lemma Resume(decode: Bytes -> string, s: State, chunk: Bytes)
    requires NEWLINE !in s.buffer
    ensures Feed(decode, s.(buffer := []), s.buffer + chunk) == Feed(decode, s, chunk)
  {
    FeedConcat(decode, s.(buffer := []), s.buffer, chunk);
    FeedFills(decode, s.(buffer := []), s.buffer);
    assert [] + s.buffer == s.buffer;
  }

  /** Pushing chunk after chunk. */
  function FeedAll(decode: Bytes -> string, s: State, chunks: seq<Bytes>): Parsed
    decreases |chunks|
  {
    if |chunks| == 0 then Parsed(s, [])
    else
      var first := Feed(decode, s, chunks[0]);
      var rest := FeedAll(decode, first.state, chunks[1..]);
      Parsed(rest.state, first.frames + rest.frames)
  }

  lemma {:induction false} FeedAllIsFeed(decode: Bytes -> string, s: State, chunks: seq<Bytes>)
    ensures FeedAll(decode, s, chunks) == Feed(decode, s, Flatten(chunks))
    decreases |chunks|
  {
    if |chunks| > 0 {
      FeedAllIsFeed(decode, Feed(decode, s, chunks[0]).state, chunks[1..]);
      FeedConcat(decode, s, chunks[0], Flatten(chunks[1..]));
    }
  }

  /** However a byte stream is cut into chunks, even inside a character or between carriage
      return and line feed, the frames and the parser's final state are the same. */
  lemma ChunkingDoesNotMatter(decode: Bytes -> string, s: State, one: seq<Bytes>, other: seq<Bytes>)
    requires Flatten(one) == Flatten(other)
    ensures FeedAll(decode, s, one) == FeedAll(decode, s, other)
  {
    FeedAllIsFeed(decode, s, one);
    FeedAllIsFeed(decode, s, other);
  }

  /** An assembler is a fold over frames; `step` stands for any of them, errors included. */
  function Fold<A>(step: (A, Frame) -> A, a: A, frames: seq<Frame>): A
    decreases |frames|
  {
    if |frames| == 0 then a else Fold(step, step(a, frames[0]), frames[1..])
  }

  lemma {:induction false} FoldConcat<A>(step: (A, Frame) -> A, a: A, xs: seq<Frame>, ys: seq<Frame>)
    ensures Fold(step, a, xs + ys) == Fold(step, Fold(step, a, xs), ys)
    decreases |xs|
  {
    if |xs| == 0 {
      assert xs + ys == ys;
    } else {
      assert (xs + ys)[1..] == xs[1..] + ys;
      FoldConcat(step, step(a, xs[0]), xs[1..], ys);
    }
  }

  /** Parser and assembler, driven chunk by chunk. */
  function Run<A>(decode: Bytes -> string, step: (A, Frame) -> A, s: State, a: A, chunks: seq<Bytes>): A
    decreases |chunks|
  {
    if |chunks| == 0 then a
    else
      var p := Feed(decode, s, chunks[0]);
      Run(decode, step, p.state, Fold(step, a, p.frames), chunks[1..])
  }

  lemma {:induction false} RunIsFold<A>(decode: Bytes -> string, step: (A, Frame) -> A, s: State, a: A, chunks: seq<Bytes>)
    ensures Run(decode, step, s, a, chunks) == Fold(step, a, FeedAll(decode, s, chunks).frames)
    decreases |chunks|
  {
    if |chunks| > 0 {
      var p := Feed(decode, s, chunks[0]);
      RunIsFold(decode, step, p.state, Fold(step, a, p.frames), chunks[1..]);
      FoldConcat(step, a, p.frames, FeedAll(decode, p.state, chunks[1..]).frames);
    }
  }

  /** What an assembler ends up with depends only on the byte stream. */
  lemma PipelineDependsOnBytes<A>(decode: Bytes -> string, step: (A, Frame) -> A, a: A, one: seq<Bytes>, other: seq<Bytes>)
    requires Flatten(one) == Flatten(other)
    ensures Run(decode, step, START, a, one) == Run(decode, step, START, a, other)
  {
    RunIsFold(decode, step, START, a, one);
    RunIsFold(decode, step, START, a, other);
    ChunkingDoesNotMatter(decode, START, one, other);
  }

  // ---- The parser itself ----

  class SseParser {
    /** Lossy decoding of one complete line. */
    const decode: Bytes -> string
    var buffer: Bytes
    var eventName: string
    var dataLines: seq<string>

    function Now(): State
      reads this
    {
      State(buffer, eventName, dataLines)
    }

    ghost predicate Valid()
      reads this
    {
      NEWLINE !in buffer
    }

    constructor (decode: Bytes -> string)
      ensures Valid() && Now() == START && this.decode == decode
    {
      this.decode := decode;
      buffer, eventName, dataLines := [], "", [];
    }

    /** `iter().position(..)` for the line end. */
    static method Position(s: Bytes) returns (at: nat)
      ensures at <= |s| && NEWLINE !in s[..at] && (at < |s| ==> s[at] == NEWLINE)
    {
      at := 0;
      while at < |s| && s[at] != NEWLINE
        invariant at <= |s| && NEWLINE !in s[..at]
      {
        at := at + 1;
      }
    }

    method Push(chunk: Bytes) returns (out: seq<Frame>)
      requires Valid()
      modifies this
      ensures Valid() && Parsed(Now(), out) == Feed(decode, old(Now()), chunk)
    {
      ghost var target := Feed(decode, Now(), chunk);
      Resume(decode, Now(), chunk);
      buffer := buffer + chunk;
      out := [];
      var idx := Position(buffer);
      while idx < |buffer|
        invariant 0 <= idx <= |buffer| && NEWLINE !in buffer[..idx] && (idx < |buffer| ==> buffer[idx] == NEWLINE)
        invariant target == Behind(out, Feed(decode, State([], eventName, dataLines), buffer))
        decreases |buffer|
      {
        LineStep(decode, State([], eventName, dataLines), buffer, idx, out);
        var line := decode(buffer[..idx]);
        buffer := buffer[idx + 1..];
        out := TakeLine(line, out);
        idx := Position(buffer);
      }
      assert buffer[..idx] == buffer;
      NoLineLeft(decode, State([], eventName, dataLines), buffer, out);
    }

    /** The effect of one complete line on the fields. */
    method TakeLine(decoded: string, frames: seq<Frame>) returns (out: seq<Frame>)
      modifies this`eventName, this`dataLines
      ensures var p := OnLine(State([], old(eventName), old(dataLines)), decoded);
              State([], eventName, dataLines) == p.state && out == frames + p.frames
    {
      out := frames;
      var line := decoded;
      if |line| > 0 && line[|line| - 1] == '\r' {
        line := line[..|line| - 1];
      }
      if line == "" {
        if dataLines != [] || eventName != "" {
          out := out + [Frame(eventName, Join(dataLines))];
          eventName, dataLines := "", [];
        }
      } else if "event:" <= line {
        eventName := Trim(line[6..]);
      } else if "data:" <= line {
        dataLines := dataLines + [TrimStart(line[5..])];
      }
    }
  }
}
