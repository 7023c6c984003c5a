/** Printing a frame as `event:` and `data:` lines and parsing it back. The parser trims more than
    sections 9.2.5 and 9.2.6 of the WHATWG HTML standard ask for (they remove one leading space),
    so the frames that survive are given exactly. */
module SseRoundTrip {
  import opened Text
  import opened Sse

  /** Encoding that the line decoder undoes, and that adds no line ends. */
  ghost predicate Codec(encode: string -> Bytes, decode: Bytes -> string) {
    forall s :: decode(encode(s)) == s && ('\n' !in s ==> NEWLINE !in encode(s))
  }

  function PrintLine(encode: string -> Bytes, line: string): Bytes {
    encode(line) + [NEWLINE]
  }

  function PrintData(encode: string -> Bytes, lines: seq<string>): Bytes
    decreases |lines|
  {
    if |lines| == 0 then PrintLine(encode, "") else PrintLine(encode, "data: " + lines[0]) + PrintData(encode, lines[1..])
  }

  function Print(encode: string -> Bytes, event: string, lines: seq<string>): Bytes {
    PrintLine(encode, "event: " + event) + PrintData(encode, lines)
  }

  predicate OneLine(s: string) {
    '\n' !in s
  }

  predicate OneLines(lines: seq<string>) {
    forall i | 0 <= i < |lines| :: OneLine(lines[i])
  }

  /** What the parser makes of a data line. */
  function Received(line: string): string {
    TrimStart(StripCr(line))
  }

  function AllReceived(lines: seq<string>): seq<string> {
    seq(|lines|, i requires 0 <= i < |lines| => Received(lines[i]))
  }

  lemma FeedPrinted(encode: string -> Bytes, decode: Bytes -> string, s: State, line: string, rest: Bytes)
    requires Codec(encode, decode) && OneLine(line) && s.buffer == []
    ensures Feed(decode, s, PrintLine(encode, line) + rest)
         == Behind(OnLine(s, line).frames, Feed(decode, OnLine(s, line).state, rest))
  {
    FeedLine(decode, s, encode(line), rest);
    assert [] + encode(line) == encode(line);
  }

  lemma DataLine(s: State, line: string)
    requires s.buffer == []
    ensures OnLine(s, "data: " + line) == Parsed(State([], s.event, s.data + [Received(line)]), [])
  {
    var full := "data: " + line;
    assert StripCr(full) == "data: " + StripCr(line);
    assert StripCr(full)[5..] == " " + StripCr(line);
    assert (" " + StripCr(line))[1..] == StripCr(line);
    assert StripCr(full)[0] == 'd';
  }

  lemma {:induction false} TrimStartKeepsEnd(s: string, c: char)
    requires IsWhitespace(c)
    ensures TrimEnd(TrimStart(s + [c])) == TrimEnd(TrimStart(s))
    decreases |s|
  {
    if |s| == 0 {
      assert (s + [c])[1..] == [];
    } else if IsWhitespace(s[0]) {
      assert (s + [c])[1..] == s[1..] + [c];
      TrimStartKeepsEnd(s[1..], c);
    } else {
      assert (s + [c])[..|s|] == s;
    }
  }

  lemma EventLine(s: State, event: string)
    requires s.buffer == []
    ensures OnLine(s, "event: " + event) == Parsed(State([], Trim(event), s.data), [])
  {
    var full := "event: " + event;
    var kept := StripCr(event);
    assert StripCr(full) == "event: " + kept;
    assert StripCr(full)[6..] == " " + kept;
    assert (" " + kept)[1..] == kept;
    if |event| > 0 && event[|event| - 1] == '\r' {
      assert event == kept + ['\r'];
      TrimStartKeepsEnd(kept, '\r');
    }
    assert Trim(" " + kept) == Trim(event);
    assert "event:" <= StripCr(full);
  }

  lemma ReceivedSplit(data: seq<string>, lines: seq<string>)
    requires |lines| > 0
    ensures (data + [Received(lines[0])]) + AllReceived(lines[1..]) == data + AllReceived(lines)
  {
    assert AllReceived(lines) == [Received(lines[0])] + AllReceived(lines[1..]);
  }

  lemma {:induction false} DataParses(encode: string -> Bytes, decode: Bytes -> string, s: State, lines: seq<string>)
    requires Codec(encode, decode) && OneLines(lines) && s.buffer == []
    ensures Feed(decode, s, PrintData(encode, lines)) == OnLine(State([], s.event, s.data + AllReceived(lines)), "")
    decreases |lines|
  {
    if |lines| == 0 {
      FeedPrinted(encode, decode, s, "", []);
      assert PrintLine(encode, "") + [] == PrintLine(encode, "");
      assert s.data + AllReceived(lines) == s.data;
    } else {
      assert OneLine("data: " + lines[0]);
      FeedPrinted(encode, decode, s, "data: " + lines[0], PrintData(encode, lines[1..]));
      DataLine(s, lines[0]);
      DataParses(encode, decode, State([], s.event, s.data + [Received(lines[0])]), lines[1..]);
      ReceivedSplit(s.data, lines);
    }
  }

  /** What comes back for any event name and any data lines. */
  lemma PrintedParses(encode: string -> Bytes, decode: Bytes -> string, event: string, lines: seq<string>)
    requires Codec(encode, decode) && OneLine(event) && OneLines(lines)
    ensures Feed(decode, START, Print(encode, event, lines))
         == Parsed(START, if Trim(event) == "" && lines == [] then [] else [Frame(Trim(event), Join(AllReceived(lines)))])
  {
    assert OneLine("event: " + event);
    FeedPrinted(encode, decode, START, "event: " + event, PrintData(encode, lines));
    EventLine(START, event);
    DataParses(encode, decode, State([], Trim(event), []), lines);
    assert [] + AllReceived(lines) == AllReceived(lines);
  }

  // ---- Exactly which frames survive ----

  /** No leading whitespace, no trailing carriage return. */
  predicate Plain(line: string) {
    |line| > 0 ==> !IsWhitespace(line[0]) && line[|line| - 1] != '\r'
  }

  lemma {:induction false} TrimStartShortens(s: string)
    ensures |TrimStart(s)| <= |s| && (TrimStart(s) == s <==> |s| == 0 || !IsWhitespace(s[0]))
    ensures '\n' !in s ==> '\n' !in TrimStart(s)
    decreases |s|
  {
    if |s| > 0 && IsWhitespace(s[0]) {
      TrimStartShortens(s[1..]);
    }
  }

  lemma ReceivedIff(line: string)
    ensures Received(line) == line <==> Plain(line)
    ensures OneLine(line) ==> OneLine(Received(line))
  {
    TrimStartShortens(StripCr(line));
  }

  /** Joined lines without line ends can be told apart. */
  lemma {:induction false} JoinInjective(a: seq<string>, b: seq<string>)
    requires |a| == |b| && OneLines(a) && OneLines(b) && Join(a) == Join(b)
    ensures a == b
    decreases |a|
  {
    if |a| > 1 {
      FirstLine(a);
      FirstLine(b);
      assert |a[0]| == |b[0]|;
      assert a[0] == Join(a)[..|a[0]|] && Join(a[1..]) == Join(a)[|a[0]| + 1..];
      assert b[0] == Join(b)[..|b[0]|] && Join(b[1..]) == Join(b)[|b[0]| + 1..];
      JoinInjective(a[1..], b[1..]);
      assert a == [a[0]] + a[1..] && b == [b[0]] + b[1..];
    }
  }

  /** The first line ends at the first line end. */
  lemma FirstLine(a: seq<string>)
    requires |a| > 1 && OneLines(a)
    ensures Join(a) == a[0] + "\n" + Join(a[1..]) && Join(a)[|a[0]|] == '\n'
    ensures forall i | 0 <= i < |a[0]| :: Join(a)[i] != '\n'
  {
    assert OneLine(a[0]);
    assert forall i | 0 <= i < |a[0]| :: Join(a)[i] == a[0][i];
  }

  /** A frame comes back unchanged if and only if its name has no surrounding whitespace, none of
      its data lines starts with whitespace or ends with a carriage return, and it is not empty. */
  lemma RoundTripIff(encode: string -> Bytes, decode: Bytes -> string, event: string, lines: seq<string>)
    requires Codec(encode, decode) && OneLine(event) && OneLines(lines)
    ensures Feed(decode, START, Print(encode, event, lines)) == Parsed(START, [Frame(event, Join(lines))])
       <==> Trim(event) == event && (event != "" || lines != []) && forall i | 0 <= i < |lines| :: Plain(lines[i])
  {
    PrintedParses(encode, decode, event, lines);
    var received := AllReceived(lines);
    forall i | 0 <= i < |lines|
      ensures (received[i] == lines[i] <==> Plain(lines[i])) && OneLine(received[i])
    {
      ReceivedIff(lines[i]);
    }
    if Join(received) == Join(lines) {
      JoinInjective(received, lines);
    }
    if forall i | 0 <= i < |lines| :: Plain(lines[i]) {
      assert received == lines;
    }
  }

  /** A frame that does not survive: the standard removes the one space that was printed after the
      colon and keeps the two blanks of the data, the parser removes all three. */
  lemma BlanksAreLost(encode: string -> Bytes, decode: Bytes -> string)
    requires Codec(encode, decode)
    ensures Feed(decode, START, Print(encode, "tick", ["  x"])) == Parsed(START, [Frame("tick", "x")])
  {
    var lines := ["  x"];
    assert Received("  x") == "x" by {
      assert StripCr("  x") == "  x" && "  x"[1..] == " x" && " x"[1..] == "x";
      assert TrimStart(" x") == TrimStart("x") == "x";
    }
    assert AllReceived(lines) == ["x"];
    assert Trim("tick") == "tick" && Join(["x"]) == "x";
    assert OneLine("tick") && OneLine(lines[0]);
    PrintedParses(encode, decode, "tick", lines);
  }
}
