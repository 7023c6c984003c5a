/** Text as bytes, with the character boundaries of UTF-8 (section 3 of RFC 3629:
    a leading byte and up to three continuation bytes). */
module Text {

  newtype byte = x: int | 0 <= x < 256
  type Bytes = seq<byte>

  predicate Continuation(b: byte) {
    0x80 <= b < 0xC0
  }

  /** Rust's `str::is_char_boundary`. */
  predicate IsBoundary(s: Bytes, i: nat) {
    i == 0 || i == |s| || (i < |s| && !Continuation(s[i]))
  }

  predicate LeadWithin3(s: Bytes, i: nat)
    requires i < |s|
  {
    || (i >= 1 && !Continuation(s[i - 1]))
    || (i >= 2 && !Continuation(s[i - 2]))
    || (i >= 3 && !Continuation(s[i - 3]))
  }

  /** What UTF-8 text guarantees and the proofs need: no continuation byte is more
      than three bytes after the leading byte of its character. */
  ghost predicate IsText(s: Bytes) {
    forall i | 0 <= i < |s| && Continuation(s[i]) :: LeadWithin3(s, i)
  }

  ghost predicate IsCharacter(c: Bytes) {
    1 <= |c| <= 4 && !Continuation(c[0]) && forall i | 1 <= i < |c| :: Continuation(c[i])
  }

  function Flatten(parts: seq<Bytes>): Bytes {
    if parts == [] then [] else parts[0] + Flatten(parts[1..])
  }

  lemma TextConcat(a: Bytes, b: Bytes)
    requires IsText(a) && IsText(b)
    ensures IsText(a + b)
  {
    forall i | 0 <= i < |a + b| && Continuation((a + b)[i])
      ensures LeadWithin3(a + b, i)
    {
      if i < |a| {
        assert LeadWithin3(a, i);
      } else {
        assert LeadWithin3(b, i - |a|);
      }
    }
  }

  /** Every concatenation of characters one to four bytes wide is text. */
  lemma {:induction false} CharactersAreText(cs: seq<Bytes>)
    requires forall c | c in cs :: IsCharacter(c)
    ensures IsText(Flatten(cs))
  {
    if cs == [] {
    } else {
      assert cs[0] in cs && forall c | c in cs[1..] :: c in cs;
      CharactersAreText(cs[1..]);
      TextConcat(cs[0], Flatten(cs[1..]));
    }
  }

  /** The greatest boundary at or below `n`. */
  function Floor(s: Bytes, n: nat): (r: nat)
    requires n <= |s|
    ensures r <= n && IsBoundary(s, r)
    ensures forall j | r < j <= n :: !IsBoundary(s, j)
  {
    if IsBoundary(s, n) then n else Floor(s, n - 1)
  }

  /** The least boundary at or above `n`. */
  function Ceil(s: Bytes, n: nat): (r: nat)
    requires n <= |s|
    ensures n <= r <= |s| && IsBoundary(s, r)
    ensures forall j | n <= j < r :: !IsBoundary(s, j)
    decreases |s| - n
  {
    if IsBoundary(s, n) then n else Ceil(s, n + 1)
  }

  method CharBoundaryAtOrBefore(value: Bytes, limit: nat) returns (take: nat)
    ensures take == Floor(value, if |value| < limit then |value| else limit)
  {
    take := if |value| < limit then |value| else limit;
    ghost var top := take;
    while take > 0 && !IsBoundary(value, take)
      invariant take <= top && Floor(value, top) == Floor(value, take)
    {
      take := take - 1;
    }
  }

  method CharBoundaryAtOrAfter(value: Bytes, offset: nat) returns (take: nat)
    ensures take == Ceil(value, if |value| < offset then |value| else offset)
  {
    take := if |value| < offset then |value| else offset;
    ghost var bottom := take;
    while take < |value| && !IsBoundary(value, take)
      invariant bottom <= take <= |value| && Ceil(value, bottom) == Ceil(value, take)
    {
      take := take + 1;
    }
  }

  /** Rounding moves a position by less than one character. */
  lemma RoundingIsNear(s: Bytes, n: nat)
    requires IsText(s) && n <= |s|
    ensures n - Floor(s, n) <= 3 && Ceil(s, n) - n <= 3
  {
    if !IsBoundary(s, n) {
      assert LeadWithin3(s, n);
      assert IsBoundary(s, n - 1) || (n >= 2 && IsBoundary(s, n - 2)) || (n >= 3 && IsBoundary(s, n - 3));
    }
    if n + 3 < |s| {
      assert Continuation(s[n + 3]) ==> LeadWithin3(s, n + 3);
      assert IsBoundary(s, n) || IsBoundary(s, n + 1) || IsBoundary(s, n + 2) || IsBoundary(s, n + 3);
    }
  }

  /** The whole-character statement of what a cut at `lo` and `hi` keeps. */
  function CharStart(s: Bytes, i: nat): nat
    requires i < |s|
  {
    Floor(s, i)
  }

  function CharEnd(s: Bytes, i: nat): nat
    requires i < |s|
  {
    Ceil(s, i + 1)
  }

  lemma KeptCharacters(s: Bytes, lo: nat, hi: nat, i: nat)
    requires lo <= |s| && hi <= |s| && i < |s|
    ensures i < Floor(s, lo) <==> CharEnd(s, i) <= lo
    ensures i >= Ceil(s, hi) <==> CharStart(s, i) >= hi
  {
  }

  lemma SliceOfSlice(s: Bytes, a: nat, b: nat, x: nat, y: nat)
    requires a <= b <= |s| && x <= y <= b - a
    ensures s[a..b][x..y] == s[a + x..a + y]
  {
    var t := s[a..b];
    assert forall i | x <= i < y :: t[i] == s[a + i];
    assert |t[x..y]| == |s[a + x..a + y]|;
  }

  /** Cutting at boundaries keeps boundaries and text. */
  lemma SliceBoundaries(s: Bytes, a: nat, b: nat)
    requires a <= b <= |s| && IsBoundary(s, a) && IsBoundary(s, b)
    ensures forall i | 0 <= i <= b - a :: IsBoundary(s[a..b], i) <==> IsBoundary(s, a + i)
    ensures IsText(s) ==> IsText(s[a..b])
  {
    var t := s[a..b];
    if IsText(s) {
      forall i | 0 <= i < |t| && Continuation(t[i])
        ensures LeadWithin3(t, i)
      {
        assert LeadWithin3(s, a + i);
      }
    }
  }

  lemma SliceFloor(s: Bytes, a: nat, b: nat, n: nat)
    requires a <= n <= b <= |s| && IsBoundary(s, a) && IsBoundary(s, b)
    ensures a + Floor(s[a..b], n - a) == Floor(s, n)
  {
    SliceBoundaries(s, a, b);
    var t := s[a..b];
    var f, g := a + Floor(t, n - a), Floor(s, n);
    assert IsBoundary(s, f) && g >= a;
    assert IsBoundary(t, g - a);
  }

  lemma SliceCeil(s: Bytes, a: nat, b: nat, n: nat)
    requires a <= n <= b <= |s| && IsBoundary(s, a) && IsBoundary(s, b)
    ensures a + Ceil(s[a..b], n - a) == Ceil(s, n)
  {
    SliceBoundaries(s, a, b);
    var t := s[a..b];
    var c, d := a + Ceil(t, n - a), Ceil(s, n);
    assert IsBoundary(s, c) && d <= b;
    assert IsBoundary(t, d - a);
  }

  lemma SliceRounding(s: Bytes, a: nat, b: nat, n: nat)
    requires a <= n <= b <= |s| && IsBoundary(s, a) && IsBoundary(s, b)
    ensures a + Floor(s[a..b], n - a) == Floor(s, n)
    ensures a + Ceil(s[a..b], n - a) == Ceil(s, n)
  {
    SliceFloor(s, a, b, n);
    SliceCeil(s, a, b, n);
  }

  /** Appending text moves no boundary and no rounding below the old end. */
  lemma AppendBoundaries(s: Bytes, t: Bytes)
    requires IsText(t)
    ensures forall i | 0 <= i <= |s| :: IsBoundary(s + t, i) <==> IsBoundary(s, i)
    ensures forall n | 0 <= n <= |s| :: Floor(s + t, n) == Floor(s, n)
    ensures forall n | 0 <= n <= |s| :: Ceil(s + t, n) == Ceil(s, n)
  {
    if t != [] {
      assert Continuation(t[0]) ==> LeadWithin3(t, 0);
    }
    forall n | 0 <= n <= |s|
      ensures Floor(s + t, n) == Floor(s, n) && Ceil(s + t, n) == Ceil(s, n)
    {
      var f, g := Floor(s + t, n), Floor(s, n);
      assert IsBoundary(s, f) && IsBoundary(s + t, g);
      var c, d := Ceil(s + t, n), Ceil(s, n);
      assert IsBoundary(s + t, d);
      assert c <= d && IsBoundary(s, c);
    }
  }
}
