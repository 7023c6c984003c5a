/** Unpadded base32 (section 6 of RFC 4648) through a 32-bit buffer that silently loses its high
    bits, against a specification on sequences of bits. */
module Base32 {
  import opened Common
  import opened Text

  type Bits = seq<bool>

  const ALPHABET: string := "ABCDEFGHIJKLMNOPQRSTUVWXYZ234567"

  // ---- Bits ----

  function Bit(b: bool): nat { if b then 1 else 0 }

  /** The number that the bits spell, most significant first. */
  function Num(bits: Bits): nat {
    if |bits| == 0 then 0 else 2 * Num(bits[..|bits| - 1]) + Bit(bits[|bits| - 1])
  }

  /** The low `width` bits of `v`. */
  function ToBits(v: nat, width: nat): (r: Bits)
    ensures |r| == width
  {
    if width == 0 then [] else ToBits(v / 2, width - 1) + [v % 2 == 1]
  }

  lemma Double(x: nat, y: nat)
    ensures x * (2 * y) == 2 * (x * y)
  {
  }

  lemma {:induction false} NumConcat(a: Bits, b: Bits)
    ensures Num(a + b) == Num(a) * Pow2(|b|) + Num(b)
    decreases |b|
  {
    if |b| == 0 {
      assert a + b == a;
    } else {
      var n := |b| - 1;
      assert (a + b)[..|a + b| - 1] == a + b[..n];
      NumConcat(a, b[..n]);
      Double(Num(a), Pow2(n));
      assert Pow2(|b|) == 2 * Pow2(n);
    }
  }

  lemma {:induction false} NumBound(bits: Bits)
    ensures Num(bits) < Pow2(|bits|)
    decreases |bits|
  {
    if |bits| > 0 {
      NumBound(bits[..|bits| - 1]);
    }
  }

  lemma {:induction false} NumOfToBits(v: nat, width: nat)
    requires v < Pow2(width)
    ensures Num(ToBits(v, width)) == v
    decreases width
  {
    if width > 0 {
      NumOfToBits(v / 2, width - 1);
      assert ToBits(v, width)[..width - 1] == ToBits(v / 2, width - 1);
    }
  }

  lemma {:induction false} ToBitsOfNum(bits: Bits)
    ensures ToBits(Num(bits), |bits|) == bits
    decreases |bits|
  {
    if |bits| > 0 {
      var n := |bits| - 1;
      ToBitsOfNum(bits[..n]);
      assert bits == bits[..n] + [bits[n]];
      assert Num(bits) / 2 == Num(bits[..n]);
    }
  }

  // ---- Grouping bits, and spreading numbers over bits ----

  /** The numbers spelled by the complete groups of `width` bits. */
  function Chunk(bits: Bits, width: nat): seq<nat>
    requires width > 0
    decreases |bits|
  {
    if |bits| < width then [] else [Num(bits[..width])] + Chunk(bits[width..], width)
  }

  function Spread(values: seq<nat>, width: nat): Bits
    decreases |values|
  {
    if |values| == 0 then [] else ToBits(values[0], width) + Spread(values[1..], width)
  }

  lemma {:induction false} ChunkConcat(a: Bits, b: Bits, width: nat)
    requires width > 0 && |a| % width == 0
    ensures Chunk(a + b, width) == Chunk(a, width) + Chunk(b, width)
    decreases |a|
  {
    if |a| == 0 {
      assert a + b == b;
    } else {
      assert |a| >= width;
      assert (a + b)[..width] == a[..width] && (a + b)[width..] == a[width..] + b;
      assert (|a| - width) % width == 0 by { SubMod(|a|, width); }
      ChunkConcat(a[width..], b, width);
    }
  }

  lemma SubMod(n: nat, w: nat)
    requires w > 0 && n >= w
    ensures (n - w) % w == n % w
  {
    var q, r := n / w, n % w;
    assert n - w == (q - 1) * w + r;
    DivMod(n - w, w, q - 1, r);
  }

  lemma SubDiv(n: nat, w: nat)
    requires w > 0 && n >= w
    ensures (n - w) / w + 1 == n / w
  {
    DivMod(n - w, w, n / w - 1, n % w);
  }

  lemma DivMod(x: int, m: nat, q: int, r: nat)
    requires m > 0 && x == q * m + r && r < m
    ensures x % m == r && x / m == q
  {
    var q', r' := x / m, x % m;
    assert x == q' * m + r';
    assert (q - q') * m == r' - r;
    SmallProduct(q - q', m);
  }

  lemma SmallProduct(k: int, m: nat)
    requires m > 0
    ensures k >= 1 ==> k * m >= m
    ensures k <= -1 ==> k * m + m <= 0
  {
    if k >= 1 {
      assert (k - 1) * m >= 0;
    }
    if k <= -1 {
      assert (-1 - k) * m >= 0;
    }
  }

  lemma {:induction false} SpreadConcat(a: seq<nat>, b: seq<nat>, width: nat)
    ensures Spread(a + b, width) == Spread(a, width) + Spread(b, width)
    decreases |a|
  {
    if |a| == 0 {
      assert a + b == b;
    } else {
      assert (a + b)[1..] == a[1..] + b;
      SpreadConcat(a[1..], b, width);
    }
  }

  lemma {:induction false} SpreadLength(values: seq<nat>, width: nat)
    ensures |Spread(values, width)| == |values| * width
    decreases |values|
  {
    if |values| > 0 {
      SpreadLength(values[1..], width);
    }
  }

  lemma {:induction false} SpreadOfChunk(bits: Bits, width: nat)
    requires width > 0 && |bits| % width == 0
    ensures Spread(Chunk(bits, width), width) == bits
    decreases |bits|
  {
    if |bits| >= width {
      SubMod(|bits|, width);
      SpreadOfChunk(bits[width..], width);
      ToBitsOfNum(bits[..width]);
      assert bits == bits[..width] + bits[width..];
    } else {
      DivMod(|bits|, width, 0, |bits|);
    }
  }

  lemma SplitFirst(values: seq<nat>, rest: Bits, width: nat)
    requires |values| > 0 && width > 0
    ensures var bits := Spread(values, width) + rest;
            |bits| >= width && bits[..width] == ToBits(values[0], width) && bits[width..] == Spread(values[1..], width) + rest
  {
    Halves(ToBits(values[0], width), Spread(values[1..], width), rest);
  }

  lemma Halves(a: Bits, b: Bits, c: Bits)
    ensures ((a + b) + c)[..|a|] == a && ((a + b) + c)[|a|..] == b + c
  {
  }

  /** Regrouping what was spread gives the numbers back, whatever short rest follows. */
  lemma {:induction false} ChunkOfSpread(values: seq<nat>, rest: Bits, width: nat)
    requires width > 0 && |rest| < width && forall i | 0 <= i < |values| :: values[i] < Pow2(width)
    ensures Chunk(Spread(values, width) + rest, width) == values
    decreases |values|
  {
    if |values| == 0 {
      assert Spread(values, width) + rest == rest;
    } else {
      var bits := Spread(values, width) + rest;
      SplitFirst(values, rest, width);
      assert Chunk(bits, width) == [Num(bits[..width])] + Chunk(bits[width..], width);
      ChunkOfSpread(values[1..], rest, width);
      NumOfToBits(values[0], width);
      assert values == [values[0]] + values[1..];
    }
  }

  // ---- What encoding and decoding mean ----

  function Zeros(n: nat): Bits {
    seq(n, _ => false)
  }

  function Missing(n: nat): nat {
    (5 - n % 5) % 5
  }

  function Numbers(input: Bytes): seq<nat> {
    seq(|input|, i requires 0 <= i < |input| => input[i] as nat)
  }

  function EncodeValues(input: Bytes): seq<nat> {
    var bits := Spread(Numbers(input), 8);
    Chunk(bits + Zeros(Missing(|bits|)), 5)
  }

  function DecodeValues(values: seq<nat>): seq<nat> {
    Chunk(Spread(values, 5), 8)
  }

  /** Unpadded base32 is undone. */
  lemma ValuesRoundTrip(input: Bytes)
    ensures DecodeValues(EncodeValues(input)) == Numbers(input)
  {
    var bits := Spread(Numbers(input), 8);
    var padded := bits + Zeros(Missing(|bits|));
    assert |padded| % 5 == 0;
    SpreadOfChunk(padded, 5);
    assert Pow2(8) == 256;
    ChunkOfSpread(Numbers(input), Zeros(Missing(|bits|)), 8);
  }

  lemma {:induction false} ChunkLength(bits: Bits, width: nat)
    requires width > 0
    ensures |Chunk(bits, width)| == |bits| / width
    ensures forall i | 0 <= i < |Chunk(bits, width)| :: Chunk(bits, width)[i] < Pow2(width)
    decreases |bits|
  {
    if |bits| >= width {
      ChunkLength(bits[width..], width);
      NumBound(bits[..width]);
      SubDiv(|bits|, width);
    } else {
      DivMod(|bits|, width, 0, |bits|);
    }
  }

  /** The output has the ceiling of 8n/5 characters. */
  lemma EncodedLength(input: Bytes)
    ensures |EncodeValues(input)| == (8 * |input| + 4) / 5
    ensures forall i | 0 <= i < |EncodeValues(input)| :: EncodeValues(input)[i] < 32
  {
    var bits := Spread(Numbers(input), 8);
    SpreadLength(Numbers(input), 8);
    ChunkLength(bits + Zeros(Missing(|bits|)), 5);
    assert Pow2(5) == 32;
  }

  // ---- Characters ----

  datatype Symbol = Digit(value: nat) | Skipped | Unknown

  predicate IsSeparator(c: char) {
    c == '=' || c == ' ' || c == '\t' || c == '\r' || c == '\n' || c == '-'
  }

  function SymbolOf(c: char): (s: Symbol)
    ensures s.Digit? ==> s.value < 32
  {
    if 'A' <= c <= 'Z' then Digit(c as nat - 'A' as nat)
    else if 'a' <= c <= 'z' then Digit(c as nat - 'a' as nat)
    else if '2' <= c <= '7' then Digit(c as nat - '2' as nat + 26)
    else if IsSeparator(c) then Skipped
    else Unknown
  }

  function Upper(c: char): char {
    if 'a' <= c <= 'z' then (c as int - 32) as char else c
  }

  lemma AlphabetAt(v: nat)
    requires v < 32
    ensures ALPHABET[v] == if v < 26 then ('A' as int + v) as char else ('2' as int + v - 26) as char
  {
  }

  /** A character reads as the digit `v` exactly if its capital stands at `v` in the alphabet, and is
      skipped exactly if it is a separator. */
  lemma SymbolMeaning(c: char, v: nat)
    ensures SymbolOf(c) == Digit(v) <==> v < 32 && ALPHABET[v] == Upper(c)
    ensures SymbolOf(c) == Skipped <==> IsSeparator(c)
    ensures SymbolOf(c) == Unknown <==> Upper(c) !in ALPHABET && !IsSeparator(c)
  {
    if v < 32 {
      AlphabetAt(v);
    }
    if SymbolOf(c).Digit? {
      AlphabetAt(SymbolOf(c).value);
    } else {
      forall i: nat | i < 32
        ensures ALPHABET[i] != Upper(c)
      {
        AlphabetAt(i);
      }
    }
  }

  /** The digits of a text, or nothing if it has an unknown character. */
  function Digits(s: string): Option<seq<nat>> {
    if |s| == 0 then Some([])
    else
      var n := |s| - 1;
      match Digits(s[..n])
      case None => None
      case Some(values) =>
        match SymbolOf(s[n])
        case Digit(v) => Some(values + [v])
        case Skipped => Some(values)
        case Unknown => None
  }

  function Rendered(values: seq<nat>): string
    requires forall i | 0 <= i < |values| :: values[i] < 32
  {
    seq(|values|, i requires 0 <= i < |values| => ALPHABET[values[i]])
  }

  lemma AlphabetReadsBack(v: nat)
    requires v < 32
    ensures SymbolOf(ALPHABET[v]) == Digit(v)
  {
    AlphabetAt(v);
  }

  lemma {:induction false} DigitsOfRendered(values: seq<nat>)
    requires forall i | 0 <= i < |values| :: values[i] < 32
    ensures Digits(Rendered(values)) == Some(values)
    decreases |values|
  {
    if |values| > 0 {
      var n := |values| - 1;
      DigitsOfRendered(values[..n]);
      assert Rendered(values)[..n] == Rendered(values[..n]);
      AlphabetReadsBack(values[n]);
      assert values == values[..n] + [values[n]];
    }
  }

  /** What `base32_decode` promises: an unknown character is an error, else the digits regrouped. */
  ghost predicate Decodes(input: string, output: Option<Bytes>) {
    match Digits(input)
    case None => output.None?
    case Some(values) => output.Some? && Numbers(output.value) == DecodeValues(values)
  }

  lemma NumbersInjective(a: Bytes, b: Bytes)
    requires Numbers(a) == Numbers(b)
    ensures a == b
  {
    assert |a| == |Numbers(a)| && |b| == |Numbers(b)|;
    forall i | 0 <= i < |a|
      ensures a[i] == b[i]
    {
      assert Numbers(a)[i] == Numbers(b)[i];
    }
  }

  function Encoded(input: Bytes): string {
    EncodedLength(input);
    Rendered(EncodeValues(input))
  }

  /** Decoding undoes encoding for every byte sequence. */
  lemma Base32RoundTrip(input: Bytes, output: Option<Bytes>)
    requires Decodes(Encoded(input), output)
    ensures output == Some(input)
  {
    EncodedLength(input);
    DigitsOfRendered(EncodeValues(input));
    ValuesRoundTrip(input);
    NumbersInjective(output.value, input);
  }

  /** The text without what a decoder skips, in capitals. */
  function Cleaned(text: string): string {
    if |text| == 0 then ""
    else
      var n := |text| - 1;
      Cleaned(text[..n]) + (if IsSeparator(text[n]) then "" else [Upper(text[n])])
  }

  lemma DigitsSnoc(s: string, c: char)
    requires !IsSeparator(c)
    ensures Digits(s + [c]) == if Digits(s).None? || SymbolOf(c) == Unknown then None
                               else Some(Digits(s).value + [SymbolOf(c).value])
  {
    assert (s + [c])[..|s|] == s;
  }

  lemma {:induction false} CleanedReadsTheSame(text: string)
    ensures Digits(Cleaned(text)) == Digits(text)
    decreases |text|
  {
    if |text| > 0 {
      var n := |text| - 1;
      CleanedReadsTheSame(text[..n]);
      if IsSeparator(text[n]) {
        assert SymbolOf(text[n]) == Skipped && Cleaned(text) == Cleaned(text[..n]);
      } else {
        assert SymbolOf(Upper(text[n])) == SymbolOf(text[n]) && text == text[..n] + [text[n]];
        DigitsSnoc(text[..n], text[n]);
        DigitsSnoc(Cleaned(text[..n]), Upper(text[n]));
      }
    }
  }

  lemma {:induction false} CleanedConcat(a: string, b: string)
    ensures Cleaned(a + b) == Cleaned(a) + Cleaned(b)
    decreases |b|
  {
    if |b| == 0 {
      assert a + b == a;
    } else {
      var n := |b| - 1;
      CleanedConcat(a, b[..n]);
      assert (a + b)[..|a| + n] == a + b[..n];
    }
  }

  lemma {:induction false} SeparatorsVanish(noise: string)
    requires forall c | c in noise :: IsSeparator(c)
    ensures Cleaned(noise) == ""
    decreases |noise|
  {
    if |noise| > 0 {
      assert noise[|noise| - 1] in noise;
      SeparatorsVanish(noise[..|noise| - 1]);
    }
  }

  /** Padding, spaces and hyphens anywhere in a text change nothing. */
  lemma InsertedSeparators(before: string, noise: string, after: string)
    requires forall c | c in noise :: IsSeparator(c)
    ensures Cleaned(before + noise + after) == Cleaned(before + after)
  {
    CleanedConcat(before + noise, after);
    CleanedConcat(before, noise);
    SeparatorsVanish(noise);
    CleanedConcat(before, after);
  }

  /** Decoding still gives the bytes back when on the way the text was lower-cased, in whole or in
      part, and separators were put in anywhere. */
  lemma NoiseIsTolerated(input: Bytes, text: string, output: Option<Bytes>)
    requires Cleaned(text) == Cleaned(Encoded(input)) && Decodes(text, output)
    ensures output == Some(input)
  {
    CleanedReadsTheSame(text);
    CleanedReadsTheSame(Encoded(input));
    Base32RoundTrip(input, output);
  }

  lemma {:induction false} LowerCaseReadsTheSame(text: string)
    ensures Cleaned(LowerCased(text)) == Cleaned(text)
    decreases |text|
  {
    if |text| > 0 {
      var n := |text| - 1;
      LowerCaseReadsTheSame(text[..n]);
      assert LowerCased(text)[..n] == LowerCased(text[..n]);
    }
  }

  function LowerCased(text: string): string {
    seq(|text|, i requires 0 <= i < |text| => if 'A' <= text[i] <= 'Z' then (text[i] as int + 32) as char else text[i])
  }

  // ---- The 32-bit buffer ----

  lemma {:induction false} Pow2Add(a: nat, b: nat)
    ensures Pow2(a + b) == Pow2(a) * Pow2(b)
    decreases b
  {
    if b > 0 {
      Pow2Add(a, b - 1);
    }
  }

  lemma ModMod(x: nat, a: nat, b: nat)
    requires a > 0 && b > 0
    ensures a * b > 0 && (x % (a * b)) % a == x % a
  {
    var q, r := x / (a * b), x % (a * b);
    assert x == q * (a * b) + r;
    assert x == (q * b) * a + r;
    var q2, r2 := r / a, r % a;
    assert x == (q * b + q2) * a + r2;
    DivMod(x, a, q * b + q2, r2);
  }

  /** The low bits of the buffer are the pending bits; what is above them does not matter. */
  ghost predicate Pending(buffer: nat, pending: Bits) {
    buffer < U32_BOUND && buffer % Pow2(|pending|) == Num(pending)
  }

  lemma Distribute(q: nat, p: nat, n: nat, w: nat, v: nat)
    ensures (q * p + n) * w + v == q * (p * w) + (n * w + v)
  {
    assert (q * p + n) * w == (q * p) * w + n * w;
    assert (q * p) * w == q * (p * w);
  }

  lemma FitsBelow(n: nat, p: nat, v: nat, w: nat)
    requires n < p && v < w
    ensures n * w + v < p * w
  {
    assert (n + 1) * w <= p * w;
  }

  /** Shifting by a factor and adding, modulo a multiple: the low part is what one expects. */
  lemma ShiftArithmetic(buffer: nat, p: nat, n: nat, v: nat, w: nat, r: nat)
    requires p > 0 && w > 0 && r > 0 && buffer % p == n && v < w
    ensures p * w > 0 && (p * w) * r > 0
    ensures ((buffer * w + v) % ((p * w) * r)) % (p * w) == n * w + v
  {
    var q := buffer / p;
    assert buffer == q * p + n;
    Distribute(q, p, n, w, v);
    FitsBelow(n, p, v, w);
    DivMod(buffer * w + v, p * w, q, n * w + v);
    ModMod(buffer * w + v, p * w, r);
  }

  lemma TakeArithmetic(buffer: nat, p: nat, w: nat, h: nat, t: nat)
    requires p > 0 && w > 0 && h < w && t < p && p * w > 0 && buffer % (p * w) == h * p + t
    ensures (buffer / p) % w == h && buffer % p == t
  {
    var q := buffer / (p * w);
    assert buffer == q * (p * w) + (h * p + t);
    assert q * (p * w) == (q * w) * p;
    assert (q * w) * p + h * p == (q * w + h) * p;
    DivMod(buffer, p, q * w + h, t);
    DivMod(q * w + h, w, q, h);
  }

  lemma ShiftedValue(buffer: nat, n: nat, v: nat, have: nat, width: nat)
    requires have + width <= 32 && buffer % Pow2(have) == n && v < Pow2(width)
    ensures ((buffer * Pow2(width) + v) % U32_BOUND) % Pow2(have + width) == n * Pow2(width) + v
  {
    var rest := 32 - (have + width);
    Pow2Add(have, width);
    Pow2Add(have + width, rest);
    Pow2Of32();
    ShiftArithmetic(buffer, Pow2(have), n, v, Pow2(width), Pow2(rest));
  }

  /** Shifting `width` bits in, in 32 bits: nothing that is still pending is lost. */
  lemma ShiftIn(buffer: nat, pending: Bits, v: nat, width: nat)
    requires Pending(buffer, pending) && v < Pow2(width) && |pending| + width <= 32
    ensures Pending((buffer * Pow2(width) + v) % U32_BOUND, pending + ToBits(v, width))
  {
    NumConcat(pending, ToBits(v, width));
    NumOfToBits(v, width);
    ShiftedValue(buffer, Num(pending), v, |pending|, width);
  }

  lemma Pow2Of32()
    ensures Pow2(32) == U32_BOUND
  {
    assert Pow2(8) == 256;
    Pow2Add(8, 8);
    Pow2Add(16, 16);
  }

  /** Taking the first `width` pending bits out. */
  lemma TakeOut(buffer: nat, pending: Bits, width: nat)
    requires Pending(buffer, pending) && width <= |pending|
    ensures (buffer / Pow2(|pending| - width)) % Pow2(width) == Num(pending[..width])
    ensures Pending(buffer, pending[width..])
  {
    var head, tail := pending[..width], pending[width..];
    assert pending == head + tail;
    NumConcat(head, tail);
    NumBound(head);
    NumBound(tail);
    Pow2Add(|tail|, width);
    TakeArithmetic(buffer, Pow2(|tail|), Pow2(width), Num(head), Num(tail));
  }

  /** The last group is filled up with zero bits. */
  lemma FillUp(buffer: nat, pending: Bits)
    requires Pending(buffer, pending) && |pending| < 5
    ensures ((buffer * Pow2(5 - |pending|)) % U32_BOUND) % 32 == Num(pending + Zeros(5 - |pending|))
  {
    var k := 5 - |pending|;
    ZeroBits(k);
    ShiftIn(buffer, pending, 0, k);
    assert Pow2(5) == 32;
  }

  lemma {:induction false} ZeroBits(k: nat)
    ensures ToBits(0, k) == Zeros(k)
  {
    if k > 0 {
      ZeroBits(k - 1);
      assert Zeros(k) == Zeros(k - 1) + [false];
    }
  }

  // ---- What a text spells as a number ----

  /** The number that the digits spell in this base. */
  function Spelled(values: seq<nat>, base: nat): nat
    decreases |values|
  {
    if |values| == 0 then 0 else Spelled(values[..|values| - 1], base) * base + values[|values| - 1]
  }

  lemma {:induction false} SpreadSpells(values: seq<nat>, width: nat)
    requires forall i | 0 <= i < |values| :: values[i] < Pow2(width)
    ensures Num(Spread(values, width)) == Spelled(values, Pow2(width))
    decreases |values|
  {
    if |values| > 0 {
      var n := |values| - 1;
      SpreadSpells(values[..n], width);
      assert values == values[..n] + [values[n]];
      SpreadSnoc(values[..n], values[n], width);
      NumConcat(Spread(values[..n], width), ToBits(values[n], width));
      NumOfToBits(values[n], width);
    }
  }

  lemma {:induction false} ZerosSpellNothing(n: nat)
    ensures Num(Zeros(n)) == 0
  {
    if n > 0 {
      ZerosSpellNothing(n - 1);
      assert Zeros(n)[..n - 1] == Zeros(n - 1);
    }
  }

  /** The digit that a character of the RFC 4648 alphabet stands for. */
  predicate InAlphabet(c: char) {
    'A' <= c <= 'Z' || '2' <= c <= '7'
  }

  function Place(c: char): nat
    requires InAlphabet(c)
  {
    if 'A' <= c <= 'Z' then c as nat - 'A' as nat else c as nat - '2' as nat + 26
  }

  function Places(text: string): seq<nat>
    requires forall i | 0 <= i < |text| :: InAlphabet(text[i])
  {
    seq(|text|, i requires 0 <= i < |text| => Place(text[i]))
  }

  /** The encoded text, read in base 32, is the input, read in base 256, with zero bits behind it up to a multiple of
      five. */
  lemma EncodingSpells(input: Bytes)
    ensures var text := Encoded(input);
            && |text| == (8 * |input| + 4) / 5 && (forall i | 0 <= i < |text| :: InAlphabet(text[i]))
            && Spelled(Places(text), 32) == Spelled(Numbers(input), 256) * Pow2(5 * |text| - 8 * |input|)
  {
    var values := EncodeValues(input);
    EncodedLength(input);
    forall i | 0 <= i < |values|
      ensures InAlphabet(ALPHABET[values[i]]) && Place(ALPHABET[values[i]]) == values[i]
    {
      AlphabetAt(values[i]);
    }
    assert Places(Encoded(input)) == values;
    ValuesSpell(input);
  }

  lemma PaddedSpells(bits: Bits, padding: nat)
    ensures Num(bits + Zeros(padding)) == Num(bits) * Pow2(padding)
  {
    NumConcat(bits, Zeros(padding));
    ZerosSpellNothing(padding);
  }

  /** The values are the bits of the input, filled up with zeros. */
  lemma ValuesAreBits(input: Bytes)
    ensures var values, bits := EncodeValues(input), Spread(Numbers(input), 8);
            && |bits| == 8 * |input| && Spread(values, 5) == bits + Zeros(Missing(|bits|))
            && 5 * |values| == |bits| + Missing(|bits|)
  {
    var values, bits := EncodeValues(input), Spread(Numbers(input), 8);
    var padded := bits + Zeros(Missing(|bits|));
    SpreadLength(Numbers(input), 8);
    assert |padded| % 5 == 0;
    SpreadOfChunk(padded, 5);
    SpreadLength(values, 5);
    assert |padded| == |bits| + Missing(|bits|);
  }

  lemma FiveBits()
    ensures Pow2(5) == 32 && Pow2(8) == 256
  {
  }

  lemma ValuesSpell(input: Bytes)
    ensures var values := EncodeValues(input);
            && 5 * |values| >= 8 * |input|
            && Spelled(values, 32) == Spelled(Numbers(input), 256) * Pow2(5 * |values| - 8 * |input|)
  {
    EncodedLength(input);
    ValuesAreBits(input);
    FiveBits();
    SpreadSpells(Numbers(input), 8);
    SpreadSpells(EncodeValues(input), 5);
    PaddedSpells(Spread(Numbers(input), 8), Missing(|Spread(Numbers(input), 8)|));
  }

  /** Regrouping bits drops a rest shorter than a group. */
  lemma ChunkSpells(bits: Bits, width: nat)
    requires width > 0
    ensures Spelled(Chunk(bits, width), Pow2(width)) == Num(bits) / Pow2(|bits| % width)
  {
    var rest := |bits| % width;
    var whole, tail := bits[..|bits| - rest], bits[|bits| - rest..];
    assert bits == whole + tail;
    WholeGroups(|bits|, width);
    ChunkConcat(whole, tail, width);
    assert Chunk(tail, width) == [] && Chunk(whole, width) + [] == Chunk(whole, width);
    ChunkLength(whole, width);
    SpreadOfChunk(whole, width);
    SpreadSpells(Chunk(whole, width), width);
    NumConcat(whole, tail);
    NumBound(tail);
    DivMod(Num(bits), Pow2(rest), Num(whole), Num(tail));
  }

  lemma WholeGroups(n: nat, width: nat)
    requires width > 0
    ensures n % width < width && n % width <= n && (n - n % width) % width == 0
  {
    DivMod(n - n % width, width, n / width, 0);
  }

  /** Decoding reads the digits as a number, and drops the bits that do not fill a byte. */
  lemma DecodingSpells(values: seq<nat>, output: Bytes)
    requires Numbers(output) == DecodeValues(values) && forall i | 0 <= i < |values| :: values[i] < 32
    ensures |output| == 5 * |values| / 8
    ensures Spelled(Numbers(output), 256) == Spelled(values, 32) / Pow2(5 * |values| % 8)
  {
    SpreadLength(values, 5);
    FiveBits();
    ChunkLength(Spread(values, 5), 8);
    ChunkSpells(Spread(values, 5), 8);
    SpreadSpells(values, 5);
    assert |Numbers(output)| == |output|;
  }

  // ---- The codec itself ----

  /** The output so far spells the bits that left the buffer. */
  ghost predicate Emitted(all: Bits, done: Bits, pending: Bits, values: seq<nat>, width: nat)
    requires width > 0
  {
    all == done + pending && |done| % width == 0 && values == Chunk(done, width)
  }

  lemma EmitGroup(all: Bits, done: Bits, pending: Bits, values: seq<nat>, width: nat)
    requires width > 0 && Emitted(all, done, pending, values, width) && width <= |pending|
    ensures Emitted(all, done + pending[..width], pending[width..], values + [Num(pending[..width])], width)
  {
    var group := pending[..width];
    assert pending == group + pending[width..];
    assert all == (done + group) + pending[width..];
    ChunkConcat(done, group, width);
    assert group[..width] == group;
    DivMod(|done| + width, width, |done| / width + 1, 0);
  }

  lemma MoreBits(all: Bits, done: Bits, pending: Bits, values: seq<nat>, width: nat, more: Bits)
    requires width > 0 && Emitted(all, done, pending, values, width)
    ensures Emitted(all + more, done, pending + more, values, width)
  {
    assert (done + pending) + more == done + (pending + more);
  }

  lemma SpreadSnoc(values: seq<nat>, v: nat, width: nat)
    ensures Spread(values + [v], width) == Spread(values, width) + ToBits(v, width)
  {
    SpreadConcat(values, [v], width);
    assert Spread([v], width) == ToBits(v, width);
  }

  lemma NumbersSnoc(input: Bytes, i: nat)
    requires i < |input|
    ensures Numbers(input[..i + 1]) == Numbers(input[..i]) + [input[i] as nat]
  {
  }

  lemma LastGroup(all: Bits, done: Bits, pending: Bits, values: seq<nat>)
    requires Emitted(all, done, pending, values, 5) && |pending| < 5
    ensures Chunk(all + Zeros(Missing(|all|)), 5)
         == values + (if |pending| > 0 then [Num(pending + Zeros(5 - |pending|))] else [])
  {
    assert |all| % 5 == |pending| by { DivMod(|all|, 5, |done| / 5, |pending|); }
    var rest := pending + Zeros(Missing(|all|));
    assert all + Zeros(Missing(|all|)) == done + rest;
    ChunkConcat(done, rest, 5);
    if |pending| > 0 {
      assert rest[..5] == rest;
    } else {
      assert Chunk(rest, 5) == [];
    }
  }

  /** What the encoder has done after reading `all`: the characters out, the bits in the buffer. */
  ghost predicate Encoding(all: Bits, done: Bits, pending: Bits, values: seq<nat>, buffer: nat, output: string) {
    && Pending(buffer, pending) && Emitted(all, done, pending, values, 5)
    && (forall i | 0 <= i < |values| :: values[i] < 32) && output == Rendered(values)
  }

  /** Write out complete groups of five bits. */
  method Drain(buffer: nat, bitCount: nat, text: string, ghost all: Bits, ghost done0: Bits, ghost pending0: Bits, ghost values0: seq<nat>)
    returns (bits: nat, output: string, ghost done: Bits, ghost pending: Bits, ghost values: seq<nat>)
    requires bitCount == |pending0| && Encoding(all, done0, pending0, values0, buffer, text)
    ensures bits == |pending| < 5 && Encoding(all, done, pending, values, buffer, output)
  {
    bits, output := bitCount, text;
    done, pending, values := done0, pending0, values0;
    while bits >= 5
      invariant bits == |pending| && Encoding(all, done, pending, values, buffer, output)
    {
      TakeOut(buffer, pending, 5);
      assert Pow2(5) == 32;
      var index := (buffer / Pow2(bits - 5)) % 32;
      EmitGroup(all, done, pending, values, 5);
      RenderedSnoc(values, index);
      output := output + [ALPHABET[index]];
      bits := bits - 5;
      done, values, pending := done + pending[..5], values + [index], pending[5..];
    }
  }

  lemma RenderedSnoc(values: seq<nat>, v: nat)
    requires (forall i | 0 <= i < |values| :: values[i] < 32) && v < 32
    ensures forall i | 0 <= i < |values + [v]| :: (values + [v])[i] < 32
    ensures Rendered(values + [v]) == Rendered(values) + [ALPHABET[v]]
  {
  }

  /** The `bits` bits left in the 32-bit buffer, with zeros behind them. */
  function LastIndex(buffer: nat, bits: nat): (index: nat)
    requires bits < 5
    ensures index < 32
  {
    ((buffer * Pow2(5 - bits)) % U32_BOUND) % 32
  }

  /** What is left in the buffer makes the last character. */
  lemma LastCharacter(input: Bytes, done: Bits, pending: Bits, values: seq<nat>, buffer: nat, output: string)
    requires |pending| < 5 && Encoding(Spread(Numbers(input), 8), done, pending, values, buffer, output)
    ensures Encoded(input)
         == if |pending| > 0 then output + [ALPHABET[LastIndex(buffer, |pending|)]] else output
  {
    EncodedLength(input);
    LastGroup(Spread(Numbers(input), 8), done, pending, values);
    if |pending| > 0 {
      FillUp(buffer, pending);
      RenderedSnoc(values, Num(pending + Zeros(5 - |pending|)));
    } else {
      assert values + [] == values;
    }
  }

  lemma PushByte(input: Bytes, k: nat, done: Bits, pending: Bits, values: seq<nat>, buffer: nat, output: string)
    requires k < |input| && |pending| < 5 && Encoding(Spread(Numbers(input[..k]), 8), done, pending, values, buffer, output)
    ensures Encoding(Spread(Numbers(input[..k + 1]), 8), done, pending + ToBits(input[k] as nat, 8), values,
                     (buffer * 256 + input[k] as nat) % U32_BOUND, output)
  {
    var byte := input[k] as nat;
    NumbersSnoc(input, k);
    SpreadSnoc(Numbers(input[..k]), byte, 8);
    MoreBits(Spread(Numbers(input[..k]), 8), done, pending, values, 5, ToBits(byte, 8));
    assert Pow2(8) == 256;
    ShiftIn(buffer, pending, byte, 8);
  }

  /** The shifted buffer has zeros where the new byte goes, so adding is the bitwise "or". */
  method Encode(input: Bytes) returns (output: string)
    ensures output == Encoded(input) && |output| == (8 * |input| + 4) / 5
  {
    EncodedLength(input);
    output := "";
    var buffer: nat, bits: nat := 0, 0;
    ghost var done: Bits, pending: Bits, values: seq<nat> := [], [], [];
    for k := 0 to |input|
      invariant |pending| == bits < 5
      invariant Encoding(Spread(Numbers(input[..k]), 8), done, pending, values, buffer, output)
    {
      PushByte(input, k, done, pending, values, buffer, output);
      buffer := (buffer * 256 + input[k] as nat) % U32_BOUND;
      pending := pending + ToBits(input[k] as nat, 8);
      bits, output, done, pending, values :=
        Drain(buffer, bits + 8, output, Spread(Numbers(input[..k + 1]), 8), done, pending, values);
    }
    assert input[..|input|] == input;
    LastCharacter(input, done, pending, values, buffer, output);
    if bits > 0 {
      output := output + [ALPHABET[LastIndex(buffer, bits)]];
    }
  }

  /** One digit read: five more bits, and a byte out once there are eight. */
  ghost predicate Decoding(read: seq<nat>, done: Bits, pending: Bits, buffer: nat, bytes: Bytes) {
    Pending(buffer, pending) && Emitted(Spread(read, 5), done, pending, Numbers(bytes), 8)
  }

  lemma PushDigit(read: seq<nat>, value: nat, done: Bits, pending: Bits, buffer: nat, bytes: Bytes)
    requires value < 32 && |pending| < 8 && Decoding(read, done, pending, buffer, bytes)
    ensures Decoding(read + [value], done, pending + ToBits(value, 5), (buffer * 32 + value) % U32_BOUND, bytes)
  {
    SpreadSnoc(read, value, 5);
    MoreBits(Spread(read, 5), done, pending, Numbers(bytes), 8, ToBits(value, 5));
    assert Pow2(5) == 32;
    ShiftIn(buffer, pending, value, 5);
  }

  lemma EmitByte(read: seq<nat>, done: Bits, pending: Bits, buffer: nat, bytes: Bytes)
    requires |pending| >= 8 && Decoding(read, done, pending, buffer, bytes)
    ensures Decoding(read, done + pending[..8], pending[8..], buffer,
                     bytes + [((buffer / Pow2(|pending| - 8)) % 256) as byte])
  {
    var b := (buffer / Pow2(|pending| - 8)) % 256;
    TakeOut(buffer, pending, 8);
    assert Pow2(8) == 256;
    assert b == Num(pending[..8]);
    EmitGroup(Spread(read, 5), done, pending, Numbers(bytes), 8);
    AppendNumber(bytes, b);
  }

  lemma AppendNumber(bytes: Bytes, b: nat)
    requires b < 256
    ensures Numbers(bytes + [b as byte]) == Numbers(bytes) + [b]
  {
  }

  method Decode(input: string) returns (output: Option<Bytes>)
    ensures Decodes(input, output)
  {
    var bytes: Bytes := [];
    var buffer: nat, bits: nat := 0, 0;
    ghost var read: seq<nat>, done: Bits, pending: Bits := [], [], [];
    for k := 0 to |input|
      invariant Digits(input[..k]) == Some(read)
      invariant |pending| == bits < 8 && Decoding(read, done, pending, buffer, bytes)
    {
      assert input[..k + 1][..k] == input[..k];
      var symbol := SymbolOf(input[k]);
      if symbol == Unknown {
        UnknownIsError(input);
        return None;
      }
      if symbol == Skipped {
        continue;
      }
      PushDigit(read, symbol.value, done, pending, buffer, bytes);
      buffer := (buffer * 32 + symbol.value) % U32_BOUND;
      bits := bits + 5;
      read, pending := read + [symbol.value], pending + ToBits(symbol.value, 5);
      if bits >= 8 {
        EmitByte(read, done, pending, buffer, bytes);
        bytes := bytes + [((buffer / Pow2(bits - 8)) % 256) as byte];
        bits := bits - 8;
        done, pending := done + pending[..8], pending[8..];
      }
    }
    assert input[..|input|] == input;
    ChunkConcat(done, pending, 8);
    assert Chunk(pending, 8) == [];
    return Some(bytes);
  }

  lemma {:induction false} UnknownIsError(input: string)
    ensures Digits(input) == None <==> exists k :: 0 <= k < |input| && SymbolOf(input[k]) == Unknown
    decreases |input|
  {
    if |input| > 0 {
      var n := |input| - 1;
      UnknownIsError(input[..n]);
      assert forall k | 0 <= k < n :: input[..n][k] == input[k];
    }
  }
}
