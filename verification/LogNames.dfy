/** Chunk records and the file names that index them. */
module LogNames {
  import opened Common
  import opened Text

  const MARKER_NAME: string := "truncation-marker.json"

  datatype Channel = Stdout | Stderr | System

  datatype DiskChunk = DiskChunk(start: nat, end: nat, channel: Channel, text: Bytes, marker: bool)

  const DIGITS: string := "0123456789"

  predicate IsDigit(c: char) {
    '0' <= c <= '9'
  }

  function DigitValue(c: char): nat
    requires IsDigit(c)
  {
    c as nat - '0' as nat
  }

  predicate AllDigits(s: string) {
    forall i | 0 <= i < |s| :: IsDigit(s[i])
  }

  function Pow10(w: nat): (p: nat)
    ensures p > 0
  {
    if w == 0 then 1 else 10 * Pow10(w - 1)
  }

  function Value(s: string): nat
    requires AllDigits(s)
  {
    if s == "" then 0 else 10 * Value(s[..|s| - 1]) + DigitValue(s[|s| - 1])
  }

  /** The last `w` decimal digits of `n`; `format!("{:020}", n)` is `Padded(n, 20)`
      for every 64-bit `n`. */
  function Padded(n: nat, w: nat): (r: string)
    ensures |r| == w && AllDigits(r)
    ensures n < Pow10(w) ==> Value(r) == n
  {
    if w == 0 then ""
    else
      var r := Padded(n / 10, w - 1) + [DIGITS[n % 10]];
      assert r[..w - 1] == Padded(n / 10, w - 1);
      r
  }

  /** `str::parse::<u64>`: an optional `+`, then at least one digit, below 2^64. */
  function ParseU64(s: string): Option<nat> {
    var digits := if |s| > 1 && s[0] == '+' then s[1..] else s;
    if digits != "" && AllDigits(digits) && Value(digits) < U64_BOUND then Some(Value(digits)) else None
  }

  /** `str::find` for one character. */
  function Find(s: string, c: char): (r: Option<nat>)
    ensures r.Some? ==> r.value < |s| && s[r.value] == c && c !in s[..r.value]
    ensures r.None? ==> c !in s
  {
    if s == "" then None
    else if s[0] == c then Some(0)
    else
      match Find(s[1..], c)
      case None => None
      case Some(i) =>
        assert s[..i + 1] == [s[0]] + s[1..][..i];
        Some(i + 1)
  }

  lemma {:induction false} FindSplits(before: string, c: char, after: string)
    requires c !in before
    ensures Find(before + [c] + after, c) == Some(|before|)
  {
    var s := before + [c] + after;
    if before == "" {
      assert s[0] == c;
    } else {
      assert s[0] == before[0] && before[0] in before;
      assert s[1..] == before[1..] + [c] + after;
      FindSplits(before[1..], c, after);
    }
  }

  function ChannelName(channel: Channel): string {
    match channel
    case Stdout => "stdout"
    case Stderr => "stderr"
    case System => "system"
  }

  /** A file of a stream's directory. `Render` below is injective, so a directory is a
      map from these as well as from the rendered strings. */
  datatype FileName = ChunkFile(start: nat, end: nat, channel: Channel) | MarkerFile {
    predicate Fits() {
      ChunkFile? ==> start < U64_BOUND && end < U64_BOUND
    }
  }

  function Render(name: FileName): string {
    match name
    case MarkerFile => MARKER_NAME
    case ChunkFile(start, end, channel) =>
      Padded(start, 20) + "-" + Padded(end, 20) + "-" + ChannelName(channel) + ".json"
  }

  function ParseChunkRange(name: string): Option<(nat, nat)> {
    match Find(name, '-')
    case None => None
    case Some(dash) =>
      match ParseU64(name[..dash])
      case None => None
      case Some(start) =>
        var rest := name[dash + 1..];
        match Find(rest, '-')
        case None => None
        case Some(dash2) =>
          match ParseU64(rest[..dash2])
          case None => None
          case Some(end) => Some((start, end))
  }

  lemma PaddedParses(n: nat)
    requires n < U64_BOUND
    ensures ParseU64(Padded(n, 20)) == Some(n)
    ensures '-' !in Padded(n, 20)
  {
    assert Pow10(20) == 100000000000000000000 by {
      assert Pow10(5) == 100000;
      assert Pow10(10) == 10000000000;
      assert Pow10(15) == 1000000000000000;
    }
    assert IsDigit(Padded(n, 20)[0]);
  }

  lemma ParseJoined(a: string, b: string, tail: string)
    requires '-' !in a && '-' !in b
    requires ParseU64(a).Some? && ParseU64(b).Some?
    ensures ParseChunkRange(a + "-" + b + "-" + tail) == Some((ParseU64(a).value, ParseU64(b).value))
  {
    var name, rest := a + "-" + b + "-" + tail, b + "-" + tail;
    assert name == a + ['-'] + rest && rest == b + ['-'] + tail;
    FindSplits(a, '-', rest);
    FindSplits(b, '-', tail);
    assert name[..|a|] == a && name[|a| + 1..] == rest && rest[..|b|] == b;
  }

  lemma BadStartHasNoRange(word: string, rest: string)
    requires '-' !in word && word != "" && word[0] != '+' && !IsDigit(word[0])
    ensures ParseChunkRange(word + "-" + rest) == None
  {
    var name := word + "-" + rest;
    assert name == word + ['-'] + rest;
    FindSplits(word, '-', rest);
    assert name[..|word|] == word;
  }

  lemma MarkerNameParses()
    ensures ParseChunkRange(MARKER_NAME) == None
  {
    BadStartHasNoRange("truncation", "marker.json");
    assert "truncation" + "-" + "marker.json" == MARKER_NAME;
  }

  lemma JoinLast(a: string, b: string, c: string)
    ensures a + b + c == a + (b + c)
  {
  }

  lemma ChunkNameParses(start: nat, end: nat, channel: Channel)
    requires start < U64_BOUND && end < U64_BOUND
    ensures ParseChunkRange(Render(ChunkFile(start, end, channel))) == Some((start, end))
  {
    PaddedParses(start);
    PaddedParses(end);
    RangeParses(Padded(start, 20), Padded(end, 20), ChannelName(channel));
  }

  lemma RangeParses(a: string, b: string, channel: string)
    requires '-' !in a && '-' !in b
    requires ParseU64(a).Some? && ParseU64(b).Some?
    ensures ParseChunkRange(a + "-" + b + "-" + channel + ".json") == Some((ParseU64(a).value, ParseU64(b).value))
  {
    JoinLast(a + "-" + b + "-", channel, ".json");
    ParseJoined(a, b, channel + ".json");
  }

  /** Parsing undoes rendering; the marker's name carries no range. */
  lemma ParseUndoesRender(name: FileName)
    requires name.Fits()
    ensures ParseChunkRange(Render(name)) == if name.MarkerFile? then None else Some((name.start, name.end))
  {
    match name
    case MarkerFile => MarkerNameParses();
    case ChunkFile(start, end, channel) => ChunkNameParses(start, end, channel);
  }

  lemma ChannelNamesDiffer(prefix: string, c1: Channel, c2: Channel)
    requires prefix + ChannelName(c1) + ".json" == prefix + ChannelName(c2) + ".json"
    ensures c1 == c2
  {
    var n1, n2 := prefix + ChannelName(c1) + ".json", prefix + ChannelName(c2) + ".json";
    assert n1[|prefix|] == ChannelName(c1)[0] && n2[|prefix|] == ChannelName(c2)[0];
    assert n1[|prefix| + 3] == ChannelName(c1)[3] && n2[|prefix| + 3] == ChannelName(c2)[3];
  }

  /** No two files share a rendered name. */
  lemma RenderInjective(a: FileName, b: FileName)
    requires a.Fits() && b.Fits() && Render(a) == Render(b)
    ensures a == b
  {
    ParseUndoesRender(a);
    ParseUndoesRender(b);
    if a.ChunkFile? {
      ChannelNamesDiffer(Padded(a.start, 20) + "-" + Padded(a.end, 20) + "-", a.channel, b.channel);
    }
  }

  /** Minimal decimal rendering, for the marker's text. */
  function Decimal(n: nat): (r: string)
    ensures AllDigits(r) && Value(r) == n && r != "" && (|r| > 1 ==> r[0] != '0')
  {
    if n < 10 then [DIGITS[n]]
    else
      var r := Decimal(n / 10) + [DIGITS[n % 10]];
      assert r[..|r| - 1] == Decimal(n / 10);
      r
  }

  function Ascii(s: string): (b: Bytes)
    ensures |b| == |s| && IsText(b) && forall i | 0 <= i < |b| :: !Continuation(b[i])
    ensures forall i | 0 <= i < |b| && s[i] as int < 128 :: b[i] as int == s[i] as int
  {
    seq(|s|, i requires 0 <= i < |s| => if s[i] as int < 128 then s[i] as int as byte else 63)
  }

  /** The truncation notice for the range [start, end). */
  function Marker(start: nat, end: nat): (m: DiskChunk)
    ensures m.marker && m.start == start && m.end == end && m.channel == System && m.text != []
    ensures forall i | 0 <= i < |m.text| :: !Continuation(m.text[i])
  {
    DiskChunk(start, end, System,
              Ascii("[Janus log truncated: " + Decimal(Minus(end, start)) + " bytes omitted]\n"), true)
  }

  /** The bytes of `b` are the characters of `s`. */
  predicate Spells(b: Bytes, s: string) {
    |b| == |s| && forall i | 0 <= i < |b| :: b[i] as int == s[i] as int
  }

  /** The notice says how many bytes are missing. */
  lemma MarkerSays(start: nat, end: nat) returns (count: string)
    requires start <= end
    ensures AllDigits(count) && Value(count) == end - start && (|count| > 1 ==> count[0] != '0')
    ensures Spells(Marker(start, end).text, "[Janus log truncated: " + count + " bytes omitted]\n")
  {
    count := Decimal(end - start);
    var said := "[Janus log truncated: " + count + " bytes omitted]\n";
    forall i | 0 <= i < |said|
      ensures said[i] as int < 128
    {
      AsciiOnly("[Janus log truncated: ", count, " bytes omitted]\n", i);
    }
  }

  lemma AsciiOnly(a: string, digits: string, b: string, i: nat)
    requires AllDigits(digits) && i < |a + digits + b|
    requires (forall k | 0 <= k < |a| :: a[k] as int < 128) && forall k | 0 <= k < |b| :: b[k] as int < 128
    ensures (a + digits + b)[i] as int < 128
  {
    assert |a| <= i < |a| + |digits| ==> IsDigit(digits[i - |a|]);
  }
}
