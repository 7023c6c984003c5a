/** What an append to a log stream comes to: the text cut into chunk files, of which only a head and a
    tail are kept once a raw-byte limit is passed. */
module LogStore {
  import opened Common
  import opened Text
  import opened LogNames
  import opened LogDirectory
  import opened LogPaging

  const CHUNK_BYTES: nat := 64 * 1024
  const MAX_READ_BYTES: nat := 1024 * 1024

  datatype LogRetention = LogRetention(rawLimitBytes: nat, headBytes: nat) {
    predicate Valid() {
      rawLimitBytes != 0 && headBytes < rawLimitBytes
    }

    function TailBytes(): nat
      requires Valid()
    {
      rawLimitBytes - headBytes
    }
  }

  // ---- What retention keeps, as a function of the whole text ever appended ----

  ghost predicate KeepsAll(h: Bytes, total: nat, r: LogRetention) {
    total <= r.rawLimitBytes || |h| <= r.rawLimitBytes
  }

  function HeadEnd(h: Bytes, r: LogRetention): nat
    requires r.headBytes <= |h|
  {
    Floor(h, r.headBytes)
  }

  function TailStart(h: Bytes, r: LogRetention): nat
    requires r.Valid()
  {
    Minus(|h|, r.TailBytes())
  }

  function TailBegin(h: Bytes, r: LogRetention): nat
    requires r.Valid()
  {
    Ceil(h, TailStart(h, r))
  }

  /** Position `i` survives a cut of `h`. */
  ghost predicate Spared(h: Bytes, r: LogRetention, i: nat)
    requires r.Valid()
  {
    |h| <= r.rawLimitBytes || i < HeadEnd(h, r) || i >= TailBegin(h, r)
  }

  ghost predicate Kept(h: Bytes, total: nat, r: LogRetention, i: nat)
    requires r.Valid()
  {
    i < |h| && (total <= r.rawLimitBytes || Spared(h, r, i))
  }

  /** Cutting the old text and then the new one is cutting the new one. */
  lemma KeptStep(h: Bytes, total: nat, t: Bytes, total': nat, r: LogRetention, i: nat)
    requires r.Valid() && IsText(t) && total <= total' && i < |h + t|
    ensures Kept(h + t, total', r, i)
       <==> (Kept(h, total, r, i) || i >= |h|) && (total' <= r.rawLimitBytes || Spared(h + t, r, i))
  {
    if !KeepsAll(h, total, r) {
      AppendBoundaries(h, t);
      var before, after := TailStart(h, r), TailStart(h + t, r);
      assert before <= after;
      if after <= |h| {
        assert Ceil(h, before) <= Ceil(h, after);
      }
    }
  }

  lemma HeadCut(h: Bytes, ch: seq<Channel>, r: LogRetention, c: DiskChunk) returns (p: nat)
    requires Faithful(c, h, ch) && r.headBytes < c.end
    ensures p == Floor(c.text, Min(Max(c.start, r.headBytes) - c.start, |c.text|)) && p <= |c.text|
    ensures c.start + p == Max(c.start, HeadEnd(h, r)) && IsBoundary(h, c.start + p)
  {
    p := Floor(c.text, Min(Max(c.start, r.headBytes) - c.start, |c.text|));
    SliceRounding(h, c.start, c.end, Max(c.start, r.headBytes));
  }

  lemma TailCut(h: Bytes, ch: seq<Channel>, r: LogRetention, c: DiskChunk) returns (q: nat)
    requires r.Valid() && Faithful(c, h, ch) && c.start < TailStart(h, r)
    ensures q == Ceil(c.text, Min(Min(c.end, TailStart(h, r)) - c.start, |c.text|)) && q <= |c.text|
    ensures c.start + q == Min(c.end, TailBegin(h, r)) && IsBoundary(h, c.start + q)
  {
    q := Ceil(c.text, Min(Min(c.end, TailStart(h, r)) - c.start, |c.text|));
    SliceRounding(h, c.start, c.end, Min(c.end, TailStart(h, r)));
  }

  /** What one pass removes from the middle of a chunk: [max(start, head end), min(end, tail begin)). */
  lemma CutPoints(h: Bytes, ch: seq<Channel>, r: LogRetention, c: DiskChunk) returns (p: nat, q: nat)
    requires r.Valid() && Faithful(c, h, ch)
    requires Max(c.start, r.headBytes) < Min(c.end, TailStart(h, r))
    ensures |h| > r.rawLimitBytes && CutHere(c, h, r, p, q)
  {
    p := HeadCut(h, ch, r, c);
    q := TailCut(h, ch, r, c);
  }

  datatype Row = Row(firstCursor: nat, nextCursor: nat, retainedBytes: nat, totalBytes: nat, truncated: bool)

  /** The row that re-reading the directory gives. */
  function Measured(cs: seq<DiskChunk>, nextCursor: nat, total: nat, r: LogRetention): Row {
    if total <= r.rawLimitBytes then
      Row(if cs == [] then 0 else cs[0].start, nextCursor, TextLen(cs, false), total, false)
    else
      Row(if cs == [] then nextCursor else cs[0].start, nextCursor, TextLen(cs, true), total, true)
  }

  /** Greedy cutting into whole characters, at most `maxBytes` at a time. */
  function Split(value: Bytes, maxBytes: nat): (parts: seq<Bytes>)
    requires IsText(value) && maxBytes >= 4
    ensures value != [] ==> parts != []
    decreases |value|
  {
    if value == [] then []
    else
      RoundingIsNear(value, Min(|value|, maxBytes));
      var take := Floor(value, Min(|value|, maxBytes));
      DropText(value, take);
      [value[..take]] + Split(value[take..], maxBytes)
  }

  lemma DropText(value: Bytes, take: nat)
    requires IsText(value) && take <= |value| && IsBoundary(value, take)
    ensures IsText(value[take..])
  {
    SliceBoundaries(value, take, |value|);
    assert value[take..|value|] == value[take..];
  }

  lemma {:induction false} SplitLosesNothing(value: Bytes, maxBytes: nat)
    requires IsText(value) && maxBytes >= 4
    ensures Flatten(Split(value, maxBytes)) == value
    ensures forall p | p in Split(value, maxBytes) :: 0 < |p| <= maxBytes && IsText(p)
    ensures forall k | 0 <= k < |Split(value, maxBytes)| - 1 :: |Split(value, maxBytes)[k]| >= maxBytes - 3
    decreases |value|
  {
    if value == [] {
    } else {
      RoundingIsNear(value, Min(|value|, maxBytes));
      var take := Floor(value, Min(|value|, maxBytes));
      DropText(value, take);
      SliceBoundaries(value, 0, take);
      assert value[0..take] == value[..take] && value == value[..take] + value[take..];
      SplitLosesNothing(value[take..], maxBytes);
    }
  }

  method SplitText(text: Bytes, maxBytes: nat) returns (parts: seq<Bytes>)
    requires IsText(text) && maxBytes >= 4
    ensures parts == Split(text, maxBytes)
  {
    parts := [];
    var value := text;
    while value != []
      invariant IsText(value) && parts + Split(value, maxBytes) == Split(text, maxBytes)
      decreases |value|
    {
      var take := CharBoundaryAtOrBefore(value, maxBytes);
      RoundingIsNear(value, Min(|value|, maxBytes));
      DropText(value, take);
      parts := parts + [value[..take]];
      value := value[take..];
    }
  }

  // ---- One truncating pass over a listing ----

  datatype PassState = PassState(directory: Directory, dropped: Option<nat>, droppedEnd: nat)

  lemma CutsInOrder(text: Bytes, a: nat, b: nat)
    requires a <= b <= |text|
    ensures Floor(text, a) <= Ceil(text, b)
  {
  }

  function Advance(s: PassState, c: DiskChunk, prefixLen: nat, suffixStart: nat): PassState
    requires prefixLen <= suffixStart <= |c.text|
  {
    var start, end := c.start + prefixLen, c.start + suffixStart;
    PassState(Trimmed(s.directory, c, prefixLen, suffixStart),
              Some(if s.dropped.Some? then Min(s.dropped.value, start) else start),
              Max(s.droppedEnd, end))
  }

  /** Cut one listed chunk that reaches into the middle. */
  function PassOver(s: PassState, c: DiskChunk, r: LogRetention, tailStart: nat): PassState {
    var requestedStart, requestedEnd := Max(c.start, r.headBytes), Min(c.end, tailStart);
    if c.marker || requestedStart >= requestedEnd then s
    else
      Advance(s, c, Floor(c.text, Min(requestedStart - c.start, |c.text|)),
                    Ceil(c.text, Min(requestedEnd - c.start, |c.text|)))
  }

  function Pass(d: Directory, cs: seq<DiskChunk>, r: LogRetention, tailStart: nat): PassState {
    if cs == [] then PassState(d, None, 0)
    else PassOver(Pass(d, cs[..|cs| - 1], r, tailStart), cs[|cs| - 1], r, tailStart)
  }

  /** What the pass leaves alone: the listed chunks from `k` on, and whether there is a marker. */
  ghost predicate PassFrame(d: Directory, now: Directory, cs: seq<DiskChunk>, k: nat) {
    && (MarkerFile in now ==> MarkerFile in d)
    && (forall j | k <= j < |cs| :: NameOf(cs[j]) in now && now[NameOf(cs[j])] == cs[j])
  }

  /** What the pass has covered by the first `k` chunks: exactly the spared positions stay. */
  ghost predicate PassCover(d: Directory, s: PassState, cs: seq<DiskChunk>, k: nat, h: Bytes, r: LogRetention)
    requires r.Valid() && k <= |cs|
  {
    && (forall i: nat :: Covers(s.directory, i) ==> Covers(d, i))
    && (forall i: nat :: Covers(d, i) && Spared(h, r, i) ==> Covers(s.directory, i))
    && (forall j, i: nat | 0 <= j < k && Within(cs[j], i) && !Spared(h, r, i) ::
          !Covers(s.directory, i) && s.dropped.Some? && s.dropped.value <= i < s.droppedEnd)
  }

  ghost predicate PassRange(s: PassState, h: Bytes, r: LogRetention)
    requires r.Valid()
  {
    if s.dropped.None? then s.droppedEnd == 0
    else |h| > r.rawLimitBytes && HeadEnd(h, r) <= s.dropped.value < s.droppedEnd <= TailBegin(h, r)
  }

  /** A chunk is skipped only when none of its characters is to be cut. */
  lemma SkippedIsSpared(c: DiskChunk, h: Bytes, ch: seq<Channel>, r: LogRetention, i: nat)
    requires r.Valid() && Faithful(c, h, ch) && Within(c, i)
    requires Max(c.start, r.headBytes) >= Min(c.end, TailStart(h, r))
    ensures Spared(h, r, i)
  {
    if |h| > r.rawLimitBytes {
      assert c.end <= r.headBytes ==> c.end <= HeadEnd(h, r);
      assert c.start >= TailStart(h, r) ==> c.start >= TailBegin(h, r);
    }
  }

  lemma PassTrims(d: Directory, s: PassState, e: Directory, cs: seq<DiskChunk>, k: nat, h: Bytes, r: LogRetention,
                  start: nat, end: nat)
    requires r.Valid() && k < |cs| && PassCover(d, s, cs, k, h, r) && PassRange(s, h, r) && |h| > r.rawLimitBytes
    requires start == Max(cs[k].start, HeadEnd(h, r)) < end == Min(cs[k].end, TailBegin(h, r))
    requires forall i: nat :: Covers(e, i) <==> (Covers(s.directory, i) && !(start <= i < end))
    ensures var t := PassState(e, Some(if s.dropped.Some? then Min(s.dropped.value, start) else start), Max(s.droppedEnd, end));
            PassCover(d, t, cs, k + 1, h, r) && PassRange(t, h, r)
  {
    forall i: nat
      ensures Spared(h, r, i) ==> !(start <= i < end)
      ensures Within(cs[k], i) && !Spared(h, r, i) ==> start <= i < end
    {
    }
  }

  ghost predicate PassSound(d: Directory, s: PassState, cs: seq<DiskChunk>, k: nat, h: Bytes, ch: seq<Channel>, r: LogRetention)
    requires r.Valid() && k <= |cs|
  {
    WellFormed(s.directory, h, ch) && PassFrame(d, s.directory, cs, k) && PassCover(d, s, cs, k, h, r) && PassRange(s, h, r)
  }

  lemma {:induction false} PassHolds(d: Directory, cs: seq<DiskChunk>, k: nat, h: Bytes, ch: seq<Channel>, r: LogRetention)
    requires r.Valid() && k <= |cs| && WellFormed(d, h, ch) && Listing(d, cs)
    ensures PassSound(d, Pass(d, cs[..k], r, TailStart(h, r)), cs, k, h, ch, r)
  {
    if k == 0 {
      assert forall j | 0 <= j < |cs| :: cs[j] in cs;
    } else {
      PassHolds(d, cs, k - 1, h, ch, r);
      assert cs[..k][..k - 1] == cs[..k - 1];
      var s, c := Pass(d, cs[..k - 1], r, TailStart(h, r)), cs[k - 1];
      assert c in cs && EntryOk(NameOf(c), d[NameOf(c)], h, ch);
      if c.marker || Max(c.start, r.headBytes) >= Min(c.end, TailStart(h, r)) {
        PassSkips(d, s, cs, k - 1, h, ch, r);
      } else {
        var p, q := CutPoints(h, ch, r, c);
        PassCutFrame(d, s, cs, k - 1, h, ch, r, p, q);
        PassCutCover(d, s, cs, k - 1, h, ch, r, p, q);
      }
    }
  }

  /** `p` and `q` are where the pass cuts `c`. */
  ghost predicate CutHere(c: DiskChunk, h: Bytes, r: LogRetention, p: nat, q: nat)
    requires r.Valid()
  {
    && !c.marker && r.headBytes <= |h| && Max(c.start, r.headBytes) < Min(c.end, TailStart(h, r)) && p < q <= |c.text|
    && p == Floor(c.text, Min(Max(c.start, r.headBytes) - c.start, |c.text|))
    && q == Ceil(c.text, Min(Min(c.end, TailStart(h, r)) - c.start, |c.text|))
    && c.start + p == Max(c.start, HeadEnd(h, r)) && c.start + q == Min(c.end, TailBegin(h, r))
    && IsBoundary(h, c.start + p) && IsBoundary(h, c.start + q)
  }

  lemma PassSkips(d: Directory, s: PassState, cs: seq<DiskChunk>, k: nat, h: Bytes, ch: seq<Channel>, r: LogRetention)
    requires r.Valid() && k < |cs| && PassCover(d, s, cs, k, h, r)
    requires cs[k].marker || (Faithful(cs[k], h, ch) && Max(cs[k].start, r.headBytes) >= Min(cs[k].end, TailStart(h, r)))
    ensures PassCover(d, s, cs, k + 1, h, r)
  {
    forall i: nat | Within(cs[k], i)
      ensures Spared(h, r, i)
    {
      SkippedIsSpared(cs[k], h, ch, r, i);
    }
  }

  lemma PassOverCuts(s: PassState, c: DiskChunk, r: LogRetention, tailStart: nat, p: nat, q: nat)
    requires !c.marker && Max(c.start, r.headBytes) < Min(c.end, tailStart) && p <= q <= |c.text|
    requires p == Floor(c.text, Min(Max(c.start, r.headBytes) - c.start, |c.text|))
    requires q == Ceil(c.text, Min(Min(c.end, tailStart) - c.start, |c.text|))
    ensures PassOver(s, c, r, tailStart) == Advance(s, c, p, q)
  {
  }

  lemma PassCutCover(d: Directory, s: PassState, cs: seq<DiskChunk>, k: nat, h: Bytes, ch: seq<Channel>, r: LogRetention,
                     p: nat, q: nat)
    requires r.Valid() && k < |cs| && PassSound(d, s, cs, k, h, ch, r) && |h| > r.rawLimitBytes
    requires CutHere(cs[k], h, r, p, q)
    ensures var t := PassOver(s, cs[k], r, TailStart(h, r));
            PassCover(d, t, cs, k + 1, h, r) && PassRange(t, h, r)
  {
    var c := cs[k];
    TrimmedCovers(s.directory, c, p, q, h, ch);
    PassTrims(d, s, Trimmed(s.directory, c, p, q), cs, k, h, r, c.start + p, c.start + q);
    PassOverCuts(s, c, r, TailStart(h, r), p, q);
  }

  lemma PassCutFrame(d: Directory, s: PassState, cs: seq<DiskChunk>, k: nat, h: Bytes, ch: seq<Channel>, r: LogRetention,
                     p: nat, q: nat)
    requires r.Valid() && k < |cs| && ByStart(cs) && CutHere(cs[k], h, r, p, q)
    requires WellFormed(s.directory, h, ch) && PassFrame(d, s.directory, cs, k)
    ensures var t := PassOver(s, cs[k], r, TailStart(h, r));
            WellFormed(t.directory, h, ch) && PassFrame(d, t.directory, cs, k + 1)
  {
    PassOverCuts(s, cs[k], r, TailStart(h, r), p, q);
    TrimmedKeeps(s.directory, cs[k], p, q, h, ch);
    forall j | k + 1 <= j < |cs|
      ensures NameOf(cs[j]) != NameOf(cs[k])
    {
      assert cs[k].start < cs[j].start;
    }
  }

  lemma PassCutsExactly(d: Directory, s: PassState, cs: seq<DiskChunk>, h: Bytes, r: LogRetention, i: nat)
    requires r.Valid() && Listing(d, cs) && PassCover(d, s, cs, |cs|, h, r)
    ensures Covers(s.directory, i) <==> (Covers(d, i) && Spared(h, r, i))
    ensures Covers(d, i) && !Spared(h, r, i) ==> s.dropped.Some? && s.dropped.value <= i < s.droppedEnd
  {
    if Covers(d, i) {
      ListingCovers(d, cs, i);
      var j :| 0 <= j < |cs| && Within(cs[j], i);
    }
  }

  /** A whole pass keeps exactly the spared positions. */
  lemma PassDone(d: Directory, cs: seq<DiskChunk>, h: Bytes, ch: seq<Channel>, r: LogRetention)
    requires r.Valid() && WellFormed(d, h, ch) && Listing(d, cs)
    ensures var s := Pass(d, cs, r, TailStart(h, r));
            && WellFormed(s.directory, h, ch) && PassRange(s, h, r)
            && (MarkerFile in s.directory ==> MarkerFile in d)
            && (forall i: nat :: Covers(s.directory, i) <==> (Covers(d, i) && Spared(h, r, i)))
  {
    PassHolds(d, cs, |cs|, h, ch, r);
    assert cs[..|cs|] == cs;
    var s := Pass(d, cs, r, TailStart(h, r));
    forall i: nat
      ensures Covers(s.directory, i) <==> (Covers(d, i) && Spared(h, r, i))
    {
      PassCutsExactly(d, s, cs, h, r, i);
    }
  }

  lemma DropsBothEnds(d: Directory, s: PassState, cs: seq<DiskChunk>, h: Bytes, r: LogRetention)
    requires r.Valid() && Listing(d, cs) && PassCover(d, s, cs, |cs|, h, r) && PassRange(s, h, r) && |h| > r.rawLimitBytes
    requires Covers(d, HeadEnd(h, r)) && Covers(d, TailBegin(h, r) - 1)
    ensures s.dropped == Some(HeadEnd(h, r)) && s.droppedEnd == TailBegin(h, r)
  {
    assert HeadEnd(h, r) <= r.headBytes < TailStart(h, r) <= TailBegin(h, r);
    PassCutsExactly(d, s, cs, h, r, HeadEnd(h, r));
    PassCutsExactly(d, s, cs, h, r, TailBegin(h, r) - 1);
  }

  /** When both ends of the cut were on disk, the pass reports the whole cut as dropped. */
  lemma PassDropsTheCut(d: Directory, cs: seq<DiskChunk>, h: Bytes, ch: seq<Channel>, r: LogRetention)
    requires r.Valid() && WellFormed(d, h, ch) && Listing(d, cs) && |h| > r.rawLimitBytes
    requires Covers(d, HeadEnd(h, r)) && Covers(d, TailBegin(h, r) - 1)
    ensures var s := Pass(d, cs, r, TailStart(h, r));
            s.dropped == Some(HeadEnd(h, r)) && s.droppedEnd == TailBegin(h, r)
  {
    PassHolds(d, cs, |cs|, h, ch, r);
    assert cs[..|cs|] == cs;
    DropsBothEnds(d, Pass(d, cs, r, TailStart(h, r)), cs, h, r);
  }

  /** The directory after a truncating pass has also named the removed range. */
  function Cut(d: Directory, cs: seq<DiskChunk>, r: LogRetention, tailStart: nat): Directory {
    var s := Pass(d, cs, r, tailStart);
    if s.dropped.Some? then s.directory[MarkerFile := Marker(s.dropped.value, s.droppedEnd)] else s.directory
  }

  lemma CutKeepsSpared(d: Directory, cs: seq<DiskChunk>, h: Bytes, ch: seq<Channel>, r: LogRetention)
    requires r.Valid() && WellFormed(d, h, ch) && Listing(d, cs)
    ensures var e := Cut(d, cs, r, TailStart(h, r));
            && WellFormed(e, h, ch)
            && forall i: nat :: Covers(e, i) <==> (Covers(d, i) && Spared(h, r, i))
  {
    PassDone(d, cs, h, ch, r);
    var s := Pass(d, cs, r, TailStart(h, r));
    if s.dropped.Some? {
      ReplaceMarker(s.directory, Marker(s.dropped.value, s.droppedEnd), s.dropped.value, s.droppedEnd, h, ch);
    }
  }

  /** The first cut of a complete stream: chunks and marker tile the cursor range. */
  lemma FirstCutTiles(d: Directory, cs: seq<DiskChunk>, h: Bytes, ch: seq<Channel>, r: LogRetention)
    requires r.Valid() && WellFormed(d, h, ch) && Listing(d, cs) && |h| > r.rawLimitBytes
    requires forall i: nat | i < |h| :: Covers(d, i)
    ensures var e := Cut(d, cs, r, TailStart(h, r));
            && MarkerFile in e && e[MarkerFile] == Marker(HeadEnd(h, r), TailBegin(h, r))
            && forall i: nat | i < |h| :: Covers(e, i) <==> !(HeadEnd(h, r) <= i < TailBegin(h, r))
  {
    CutKeepsSpared(d, cs, h, ch, r);
    PassDropsTheCut(d, cs, h, ch, r);
  }

  // ---- Appending ----

  /** The directory after writing `parts` from `cursor` on. */
  function Written(d: Directory, channel: Channel, parts: seq<Bytes>, cursor: nat): Directory
    decreases |parts|
  {
    if parts == [] then d
    else
      var end := cursor + |parts[0]|;
      Written(d[ChunkFile(cursor, end, channel) := DiskChunk(cursor, end, channel, parts[0], false)],
              channel, parts[1..], end)
  }

  /** Where the first part of `h[at..]` ends. */
  function NextEnd(h: Bytes, at: nat): (end: nat)
    requires at <= |h|
    ensures at <= end <= |h|
  {
    at + Floor(h[at..], Min(|h| - at, CHUNK_BYTES))
  }

  function NextChunk(h: Bytes, at: nat, channel: Channel): DiskChunk
    requires at <= |h|
  {
    DiskChunk(at, NextEnd(h, at), channel, h[at..NextEnd(h, at)], false)
  }

  lemma NextEndAdvances(h: Bytes, at: nat)
    requires at < |h| && IsBoundary(h, at) && IsText(h) && IsText(h[at..])
    ensures at < NextEnd(h, at) && IsBoundary(h, NextEnd(h, at)) && IsText(h[NextEnd(h, at)..])
  {
    RoundingIsNear(h[at..], Min(|h| - at, CHUNK_BYTES));
    SliceBoundaries(h, at, |h|);
    assert h[at..|h|] == h[at..];
    assert IsBoundary(h, NextEnd(h, at));
    DropText(h, NextEnd(h, at));
  }

  lemma NextIsFaithful(at: nat, channel: Channel, h: Bytes, ch: seq<Channel>)
    requires at < |h| == |ch| && IsBoundary(h, at) && IsText(h) && IsText(h[at..])
    requires forall i | at <= i < |h| :: ch[i] == channel
    ensures Faithful(NextChunk(h, at, channel), h, ch)
  {
    NextEndAdvances(h, at);
  }

  lemma SplitStep(h: Bytes, at: nat)
    requires at < |h| && IsText(h[at..]) && IsText(h[NextEnd(h, at)..])
    ensures Split(h[at..], CHUNK_BYTES) == [h[at..NextEnd(h, at)]] + Split(h[NextEnd(h, at)..], CHUNK_BYTES)
  {
    var rest, take := h[at..], NextEnd(h, at) - at;
    assert |rest| == |h| - at && take == Floor(rest, Min(|rest|, CHUNK_BYTES));
    assert rest[take..] == h[at + take..] && rest[..take] == h[at..at + take];
  }

  lemma WrittenNext(e: Directory, at: nat, channel: Channel, h: Bytes)
    requires at < |h| && IsText(h[at..]) && IsText(h[NextEnd(h, at)..])
    ensures var c := NextChunk(h, at, channel);
            Written(e, channel, Split(h[at..], CHUNK_BYTES), at)
            == Written(e[NameOf(c) := c], channel, Split(h[c.end..], CHUNK_BYTES), c.end)
  {
    SplitStep(h, at);
    WrittenCons(e, channel, h[at..NextEnd(h, at)], Split(h[NextEnd(h, at)..], CHUNK_BYTES), at);
  }

  lemma WrittenCons(e: Directory, channel: Channel, part: Bytes, parts: seq<Bytes>, at: nat)
    ensures var end := at + |part|;
            Written(e, channel, [part] + parts, at)
            == Written(e[ChunkFile(at, end, channel) := DiskChunk(at, end, channel, part, false)], channel, parts, end)
  {
    assert ([part] + parts)[0] == part && ([part] + parts)[1..] == parts;
  }

  lemma {:induction false} WrittenHolds(d: Directory, e: Directory, from: nat, at: nat, channel: Channel, h: Bytes, ch: seq<Channel>)
    requires from <= at <= |h| && WrittenTo(d, e, from, at, h, ch) && IsBoundary(h, at) && IsText(h) && IsText(h[at..])
    requires forall i | at <= i < |h| :: ch[i] == channel
    ensures WrittenTo(d, Written(e, channel, Split(h[at..], CHUNK_BYTES), at), from, |h|, h, ch)
    decreases |h| - at
  {
    if at < |h| {
      var c := NextChunk(h, at, channel);
      NextEndAdvances(h, at);
      NextIsFaithful(at, channel, h, ch);
      WriteNext(d, e, from, c, h, ch);
      WrittenHolds(d, e[NameOf(c) := c], from, c.end, channel, h, ch);
      WrittenNext(e, at, channel, h);
    }
  }

  ghost predicate Complete(d: Directory, h: Bytes, ch: seq<Channel>, total: nat, r: LogRetention)
    requires r.Valid()
  {
    && WellFormed(d, h, ch)
    && forall i: nat :: Covers(d, i) <==> Kept(h, total, r, i)
  }

  /** Writing the text at the end of the stream, and cutting once the limit is passed, leaves
      on disk exactly what retention keeps of the longer text. */
  lemma AppendComplete(d: Directory, h: Bytes, ch: seq<Channel>, total: nat, t: Bytes, ch': seq<Channel>, total': nat,
                       r: LogRetention, e: Directory)
    requires r.Valid() && Complete(d, h, ch, total, r) && IsText(t) && total <= total'
    requires WrittenTo(d, e, |h|, |h + t|, h + t, ch')
    ensures Complete(if total' <= r.rawLimitBytes then e else Cut(e, ListingOf(e, h + t, ch'), r, TailStart(h + t, r)),
                     h + t, ch', total', r)
  {
    var h', cs := h + t, ListingOf(e, h + t, ch');
    CutKeepsSpared(e, cs, h', ch', r);
    var f := if total' <= r.rawLimitBytes then e else Cut(e, cs, r, TailStart(h', r));
    forall i: nat
      ensures Covers(f, i) <==> Kept(h', total', r, i)
    {
      if i < |h'| {
        KeptStep(h, total, t, total', r, i);
      } else if Covers(e, i) {
        CoversInside(e, h', ch', i);
      }
    }
  }

  lemma WrittenFromEnd(d: Directory, h: Bytes, ch: seq<Channel>, channel: Channel, t: Bytes)
    requires WellFormed(d, h, ch) && IsText(h) && IsText(t) && |h| + |t| < U64_BOUND
    ensures IsText(h + t)
    ensures WrittenTo(d, Written(d, channel, Split(t, CHUNK_BYTES), |h|), |h|, |h + t|, h + t, ch + seq(|t|, _ => channel))
  {
    var tc := seq(|t|, _ => channel);
    var h', ch' := h + t, ch + tc;
    ExtendHistory(d, h, ch, t, tc);
    TextConcat(h, t);
    AppendBoundaries(h, t);
    assert forall n | n in d :: EntryOk(n, d[n], h, ch);
    assert h'[|h|..] == t;
    assert IsBoundary(h', |h|);
    WrittenHolds(d, d, |h|, |h|, channel, h', ch');
  }

  // ---- The stream row ----

  ghost predicate Sound(d: Directory, h: Bytes, ch: seq<Channel>, row: Row, r: LogRetention) {
    && WellFormed(d, h, ch) && IsText(h)
    && (r.Valid() ==> Complete(d, h, ch, row.totalBytes, r))
    && row == Measured(ListingOf(d, h, ch), |h|, row.totalBytes, r)
    && (!row.truncated ==> MarkerFile !in d)
  }

  lemma MeasuredFull(cs: seq<DiskChunk>, n: nat, next: nat, total: nat, r: LogRetention)
    requires TextLen(cs, false) == n && (cs != [] ==> cs[0].start == 0) && total <= r.rawLimitBytes
    ensures Measured(cs, next, total, r) == Row(0, next, n, total, false)
  {
  }

  /** Below the limit the row is updated without reading the directory, and the values are the
      ones a re-read would give. */
  lemma FastFormAgrees(d: Directory, h: Bytes, ch: seq<Channel>, row: Row, e: Directory, t: Bytes, ch': seq<Channel>,
                       total: nat, r: LogRetention)
    requires r.Valid() && Sound(d, h, ch, row, r) && row.totalBytes <= total <= r.rawLimitBytes
    requires WrittenTo(d, e, |h|, |h + t|, h + t, ch') && IsText(t)
    ensures Sound(e, h + t, ch', Row(0, |h + t|, row.retainedBytes + |t|, total, false), r)
  {
    TextConcat(h, t);
    AppendComplete(d, h, ch, row.totalBytes, t, ch', total, r, e);
    var before, after := ListingOf(d, h, ch), ListingOf(e, h + t, ch');
    FullListing(d, before, h, ch);
    MeasuredFull(before, |h|, |h|, row.totalBytes, r);
    FullListing(e, after, h + t, ch');
    MeasuredFull(after, |h + t|, |h + t|, total, r);
  }

  /** Above the limit: the state after the cut, from the state before the append. */
  lemma CutSound(d: Directory, h: Bytes, ch: seq<Channel>, row: Row, e: Directory, t: Bytes, ch': seq<Channel>,
                 total: nat, r: LogRetention, f: Directory)
    requires r.Valid() && Sound(d, h, ch, row, r) && row.totalBytes <= total && total > r.rawLimitBytes
    requires WrittenTo(d, e, |h|, |h + t|, h + t, ch') && IsText(t)
    requires f == Cut(e, ListingOf(e, h + t, ch'), r, TailStart(h + t, r)) && WellFormed(f, h + t, ch')
    ensures Sound(f, h + t, ch', Measured(ListingOf(f, h + t, ch'), |h + t|, total, r), r)
  {
    TextConcat(h, t);
    AppendComplete(d, h, ch, row.totalBytes, t, ch', total, r, e);
  }

  /** A stream's directory and row with the text behind them. */
  datatype Stream = Stream(d: Directory, h: Bytes, ch: seq<Channel>, row: Row)

  const EMPTY_STREAM: Stream := Stream(map[], [], [], Row(0, 0, 0, 0, false))

  ghost predicate SoundStream(s: Stream, r: LogRetention) {
    Sound(s.d, s.h, s.ch, s.row, r)
  }

  lemma EmptyIsSound(r: LogRetention)
    ensures SoundStream(EMPTY_STREAM, r)
  {
    ListingUnique(map[], ListingOf(map[], [], []), []);
  }

  /** Writing the chunks of `text` leaves a directory without overlaps. */
  ghost predicate Ready(s: Stream, channel: Channel, text: Bytes) {
    && IsText(s.h) && IsText(text)
    && WellFormed(Written(s.d, channel, Split(text, CHUNK_BYTES), |s.h|), s.h + text, s.ch + seq(|text|, _ => channel))
  }

  lemma SoundIsReady(s: Stream, r: LogRetention, channel: Channel, text: Bytes)
    requires SoundStream(s, r) && IsText(text) && |s.h| + |text| < U64_BOUND
    ensures Ready(s, channel, text)
  {
    WrittenFromEnd(s.d, s.h, s.ch, channel, text);
  }

  lemma AppendIsSound(s: Stream, r: LogRetention, channel: Channel, inputLength: nat, text: Bytes)
    requires r.Valid() && SoundStream(s, r) && Ready(s, channel, text)
    ensures SoundStream(AfterAppend(s, r, channel, inputLength, text), r)
  {
    var h, ch, total := s.h + text, s.ch + seq(|text|, _ => channel), s.row.totalBytes + inputLength;
    var e := Written(s.d, channel, Split(text, CHUNK_BYTES), |s.h|);
    WrittenFromEnd(s.d, s.h, s.ch, channel, text);
    if total <= r.rawLimitBytes {
      FastFormAgrees(s.d, s.h, s.ch, s.row, e, text, ch, total, r);
    } else {
      CutKeepsSpared(e, ListingOf(e, h, ch), h, ch, r);
      CutSound(s.d, s.h, s.ch, s.row, e, text, ch, total, r, Cut(e, ListingOf(e, h, ch), r, TailStart(h, r)));
    }
  }

  /** The stream after an append of `text`, which came from `inputLength` raw bytes. */
  ghost function AfterAppend(s: Stream, r: LogRetention, channel: Channel, inputLength: nat, text: Bytes): (t: Stream)
    requires r.Valid() && Ready(s, channel, text)
    ensures WellFormed(t.d, t.h, t.ch) && t.h == s.h + text && t.ch == s.ch + seq(|text|, _ => channel)
    ensures t.row.totalBytes == s.row.totalBytes + inputLength && t.row.nextCursor == |t.h|
  {
    TextConcat(s.h, text);
    var h, ch, total := s.h + text, s.ch + seq(|text|, _ => channel), s.row.totalBytes + inputLength;
    var e := Written(s.d, channel, Split(text, CHUNK_BYTES), |s.h|);
    if total <= r.rawLimitBytes then
      Stream(e, h, ch, Row(0, |h|, s.row.retainedBytes + |text|, total, false))
    else
      var f := Cut(e, ListingOf(e, h, ch), r, TailStart(h, r));
      CutKeepsSpared(e, ListingOf(e, h, ch), h, ch, r);
      Stream(f, h, ch, Measured(ListingOf(f, h, ch), |h|, total, r))
  }

  // ---- Reading ----

  lemma CollectStep(chunks: seq<DiskChunk>, k: nat, after: nat, remaining: nat, result: seq<LogChunk>)
    requires k < |chunks| && remaining > 0
    ensures var take := Take(chunks[k], after, remaining);
            result + Page(chunks[k..], after, remaining)
            == if take == 0 then result
               else (result + [Piece(chunks[k], after, take)]) + Page(chunks[k + 1..], after, remaining - take)
  {
    var take, rest := Take(chunks[k], after, remaining), chunks[k..];
    assert rest[0] == chunks[k] && rest[1..] == chunks[k + 1..];
    if take == 0 {
      PageStops(rest, after, remaining);
      assert result + [] == result;
    } else {
      PageStep(rest, after, remaining);
      Regroup(result, Piece(chunks[k], after, take), Page(chunks[k + 1..], after, remaining - take));
    }
  }

  lemma ListingIsOrdered(d: Directory, cs: seq<DiskChunk>, h: Bytes, ch: seq<Channel>)
    requires WellFormed(d, h, ch) && Listing(d, cs)
    ensures Ordered(cs)
  {
    ListingInOrder(d, cs, h, ch);
    forall k | 0 <= k < |cs|
      ensures GoodChunk(cs[k])
    {
      assert EntryOk(NameOf(cs[k]), cs[k], h, ch);
    }
  }

  /** The files that end beyond `after`. */
  function Beyond(d: Directory, after: nat): Directory {
    map n | n in d && d[n].end > after :: d[n]
  }

  lemma BeyondListing(d: Directory, chunks: seq<DiskChunk>, after: nat, h: Bytes, ch: seq<Channel>)
    requires WellFormed(d, h, ch) && Lists(Beyond(d, after), chunks)
    ensures ByStart(chunks)
  {
    assert WellFormed(Beyond(d, after), h, ch);
    ListsInOrder(Beyond(d, after), chunks, h, ch);
  }

  lemma PendingInOrder(d: Directory, cs: seq<DiskChunk>, after: nat, h: Bytes, ch: seq<Channel>)
    requires WellFormed(d, h, ch) && Listing(d, cs)
    ensures ByStart(Pending(cs, after))
  {
    var p := Pending(cs, after);
    ListingIsOrdered(d, cs, h, ch);
    PendingSuffices(cs, after);
    forall i, j | 0 <= i < j < |p|
      ensures p[i].start < p[j].start
    {
      assert GoodChunk(p[i]);
    }
  }

  /** What reading only the files whose names end beyond `after` collects, is the filtered listing. */
  lemma FilteredListing(d: Directory, chunks: seq<DiskChunk>, after: nat, h: Bytes, ch: seq<Channel>)
    requires WellFormed(d, h, ch) && Lists(Beyond(d, after), chunks)
    ensures chunks == Pending(ListingOf(d, h, ch), after)
  {
    var cs, e := ListingOf(d, h, ch), Beyond(d, after);
    var p := Pending(cs, after);
    BeyondListing(d, chunks, after, h, ch);
    PendingInOrder(d, cs, after, h, ch);
    PendingMembers(cs, after);
    forall x
      ensures x in chunks <==> x in p
    {
      if x in p {
        assert NameOf(x) in e && e[NameOf(x)] == x;
      }
      if x in chunks {
        assert NameOf(x) in e && e[NameOf(x)] == x;
      }
    }
    SameElementsSameList(chunks, p);
  }
}
