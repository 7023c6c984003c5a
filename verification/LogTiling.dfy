/** When the truncation marker and the remaining chunks account for every cursor. A later cut
    replaces the marker by one that names only what that cut removed, so the answer is an
    exact condition and not "always". */
module LogTiling {
  import opened Common
  import opened Text
  import opened LogNames
  import opened LogDirectory
  import opened LogStore
  import opened LogTheorems

  ghost predicate Marked(d: Directory, i: nat) {
    MarkerFile in d && d[MarkerFile].start <= i < d[MarkerFile].end
  }

  /** Every cursor below `n` is in a chunk or in the range the marker names. */
  ghost predicate Tiled(d: Directory, n: nat) {
    forall i: nat | i < n :: Covers(d, i) || Marked(d, i)
  }

  ghost predicate DropsFrom(d: Directory, s: PassState) {
    if s.dropped.None? then s.directory == d else Covers(d, s.dropped.value)
  }

  lemma StepDropsFrom(d: Directory, s: PassState, c: DiskChunk, h: Bytes, ch: seq<Channel>, r: LogRetention)
    requires r.Valid() && DropsFrom(d, s) && NameOf(c) in d && d[NameOf(c)] == c && (c.marker || Faithful(c, h, ch))
    ensures DropsFrom(d, PassOver(s, c, r, TailStart(h, r)))
  {
    if !c.marker && Max(c.start, r.headBytes) < Min(c.end, TailStart(h, r)) {
      var p, q := CutPoints(h, ch, r, c);
      PassOverCuts(s, c, r, TailStart(h, r), p, q);
      assert HoldsAt(d, NameOf(c), c.start + p);
    }
  }

  /** The first position a pass drops was on disk before it, and a pass that drops nothing
      changes nothing. */
  lemma {:induction false} DroppedWasOnDisk(d: Directory, cs: seq<DiskChunk>, k: nat, h: Bytes, ch: seq<Channel>, r: LogRetention)
    requires r.Valid() && k <= |cs| && WellFormed(d, h, ch) && Listing(d, cs)
    ensures DropsFrom(d, Pass(d, cs[..k], r, TailStart(h, r)))
  {
    if k > 0 {
      DroppedWasOnDisk(d, cs, k - 1, h, ch, r);
      assert cs[..k][..k - 1] == cs[..k - 1];
      var c := cs[k - 1];
      assert c in cs && EntryOk(NameOf(c), d[NameOf(c)], h, ch);
      StepDropsFrom(d, Pass(d, cs[..k - 1], r, TailStart(h, r)), c, h, ch, r);
    }
  }

  lemma {:induction false} WritingKeepsMarker(d: Directory, channel: Channel, parts: seq<Bytes>, cursor: nat)
    ensures MarkerFile in Written(d, channel, parts, cursor) <==> MarkerFile in d
    ensures MarkerFile in d ==> Written(d, channel, parts, cursor)[MarkerFile] == d[MarkerFile]
    decreases |parts|
  {
    if |parts| > 0 {
      var end := cursor + |parts[0]|;
      var e := d[ChunkFile(cursor, end, channel) := DiskChunk(cursor, end, channel, parts[0], false)];
      WritingKeepsMarker(e, channel, parts[1..], end);
    }
  }

  /** The directory, and the pass over it, when text is appended to a stream that was cut before. */
  ghost predicate CutBefore(e: Directory, h: Bytes, h': Bytes, r: LogRetention)
    requires r.Valid()
  {
    && r.rawLimitBytes < |h| <= |h'| && HeadEnd(h', r) == HeadEnd(h, r)
    && TailBegin(h, r) <= TailBegin(h', r)
    && (forall i: nat :: Covers(e, i) <==> (i < HeadEnd(h, r) || TailBegin(h, r) <= i < |h'|))
  }

  lemma AppendedToCut(d: Directory, e: Directory, h: Bytes, ch: seq<Channel>, total: nat, t: Bytes, ch': seq<Channel>, r: LogRetention)
    requires r.Valid() && Complete(d, h, ch, total, r) && !KeepsAll(h, total, r) && IsText(t)
    requires WrittenTo(d, e, |h|, |h + t|, h + t, ch')
    ensures CutBefore(e, h, h + t, r)
  {
    AppendBoundaries(h, t);
    var before, after := TailStart(h, r), TailStart(h + t, r);
    if after <= |h| {
      assert Ceil(h, before) <= Ceil(h, after);
    }
    assert HeadEnd(h, r) <= r.headBytes < before <= TailBegin(h, r) <= |h|;
  }

  /** A second cut that removes something forgets the first gap; one that removes nothing keeps its marker. */
  lemma SecondCut(e: Directory, h: Bytes, h': Bytes, ch': seq<Channel>, r: LogRetention)
    requires r.Valid() && WellFormed(e, h', ch') && CutBefore(e, h, h', r)
    ensures var f := Cut(e, ListingOf(e, h', ch'), r, TailStart(h', r));
            if TailBegin(h', r) == TailBegin(h, r) then f == e
            else !Covers(f, HeadEnd(h, r)) && !Marked(f, HeadEnd(h, r))
  {
    var cs := ListingOf(e, h', ch');
    assert cs[..|cs|] == cs;
    DroppedWasOnDisk(e, cs, |cs|, h', ch', r);
    PassHolds(e, cs, |cs|, h', ch', r);
    CutKeepsSpared(e, cs, h', ch', r);
    var s := Pass(e, cs, r, TailStart(h', r));
    assert HeadEnd(h, r) < TailBegin(h, r);
    if TailBegin(h', r) > TailBegin(h, r) {
      PassCutsExactly(e, s, cs, h', r, TailBegin(h, r));
    }
  }

  lemma TailNotEmpty(h: Bytes, r: LogRetention)
    requires r.Valid() && |h| > r.rawLimitBytes
    ensures HeadEnd(h, r) <= r.headBytes < TailBegin(h, r) <= |h|
  {
  }

  lemma SecondCutTiles(e: Directory, h: Bytes, h': Bytes, ch': seq<Channel>, r: LogRetention)
    requires r.Valid() && WellFormed(e, h', ch') && CutBefore(e, h, h', r)
    ensures Tiled(Cut(e, ListingOf(e, h', ch'), r, TailStart(h', r)), |h'|)
       <==> Tiled(e, |h'|) && TailBegin(h', r) == TailBegin(h, r)
  {
    SecondCut(e, h, h', ch', r);
    TailNotEmpty(h, r);
    assert HeadEnd(h, r) < |h'|;
  }

  lemma WritingKeepsTiling(d: Directory, e: Directory, n: nat, m: nat, h: Bytes, ch: seq<Channel>)
    requires n <= m && WrittenTo(d, e, n, m, h, ch)
    requires MarkerFile in d ==> MarkerFile in e && e[MarkerFile] == d[MarkerFile]
    ensures Tiled(e, m) <==> Tiled(d, n)
  {
    forall i: nat
      ensures (Covers(e, i) <==> Covers(d, i) || n <= i < m) && (Marked(e, i) <==> Marked(d, i))
    {
    }
  }

  /** One append with the raw total over the limit: afterwards the cursors are all accounted for if
      and only if nothing had been cut before, or they were before and this append moves the
      start of the kept tail by nothing. */
  lemma TiledAfterAppend(d: Directory, h: Bytes, ch: seq<Channel>, total: nat, channel: Channel, t: Bytes, total': nat, r: LogRetention)
    requires r.Valid() && Complete(d, h, ch, total, r) && IsText(h) && IsText(t) && |h| + |t| < U64_BOUND
    requires total <= total' && total' > r.rawLimitBytes
    ensures var e, h', ch' := Written(d, channel, Split(t, CHUNK_BYTES), |h|), h + t, ch + seq(|t|, _ => channel);
            WellFormed(e, h', ch')
            && (Tiled(Cut(e, ListingOf(e, h', ch'), r, TailStart(h', r)), |h'|)
                <==> KeepsAll(h, total, r) || (Tiled(d, |h|) && TailBegin(h', r) == TailBegin(h, r)))
  {
    var e, h', ch' := Written(d, channel, Split(t, CHUNK_BYTES), |h|), h + t, ch + seq(|t|, _ => channel);
    WrittenFromEnd(d, h, ch, channel, t);
    if KeepsAll(h, total, r) {
      FirstCutIsTiled(e, h', ch', r);
    } else {
      AppendedToCut(d, e, h, ch, total, t, ch', r);
      WritingKeepsMarker(d, channel, Split(t, CHUNK_BYTES), |h|);
      WritingKeepsTiling(d, e, |h|, |h'|, h', ch');
      SecondCutTiles(e, h, h', ch', r);
    }
  }

  lemma FirstCutIsTiled(e: Directory, h: Bytes, ch: seq<Channel>, r: LogRetention)
    requires r.Valid() && WellFormed(e, h, ch) && forall i: nat | i < |h| :: Covers(e, i)
    ensures Tiled(Cut(e, ListingOf(e, h, ch), r, TailStart(h, r)), |h|)
  {
    if |h| > r.rawLimitBytes {
      FirstCutTiles(e, ListingOf(e, h, ch), h, ch, r);
    } else {
      CutKeepsSpared(e, ListingOf(e, h, ch), h, ch, r);
    }
  }

  // ---- Whole runs ----

  ghost predicate CutAt(r: LogRetention, feeds: seq<Feed>, k: nat)
    requires k <= |feeds|
  {
    !KeepsAll(TextOf(feeds[..k]), RawOf(feeds[..k]), r)
  }

  ghost function TailAt(r: LogRetention, feeds: seq<Feed>, k: nat): nat
    requires r.Valid() && k <= |feeds|
  {
    TailBegin(TextOf(feeds[..k]), r)
  }

  /** After all appends that had to cut, the kept tail starts at one and the same cursor. */
  ghost predicate OneTail(r: LogRetention, feeds: seq<Feed>)
    requires r.Valid()
  {
    forall j: nat, k: nat | j <= k <= |feeds| && CutAt(r, feeds, j) && CutAt(r, feeds, k) :: TailAt(r, feeds, j) == TailAt(r, feeds, k)
  }

  lemma Prefix(feeds: seq<Feed>, k: nat)
    requires k < |feeds|
    ensures feeds[..k] == feeds[..|feeds| - 1][..k] && feeds[..|feeds|] == feeds
  {
  }

  lemma OneTailStep(r: LogRetention, feeds: seq<Feed>)
    requires r.Valid() && |feeds| > 0
    ensures var n := |feeds|;
            OneTail(r, feeds) <==>
              && OneTail(r, feeds[..n - 1])
              && (CutAt(r, feeds, n) ==> forall j: nat | j < n && CutAt(r, feeds, j) :: TailAt(r, feeds, j) == TailAt(r, feeds, n))
  {
    var n, init := |feeds|, feeds[..|feeds| - 1];
    forall k: nat | k < n
      ensures (CutAt(r, feeds, k) <==> CutAt(r, init, k)) && TailAt(r, feeds, k) == TailAt(r, init, k)
    {
      Prefix(feeds, k);
    }
  }

  /** Once a cut was needed it stays needed. */
  lemma {:induction false} CutStays(r: LogRetention, feeds: seq<Feed>, j: nat)
    requires j <= |feeds| && CutAt(r, feeds, j)
    ensures !KeepsAll(TextOf(feeds), RawOf(feeds), r)
    decreases |feeds|
  {
    if j == |feeds| {
      assert feeds[..j] == feeds;
    } else {
      Prefix(feeds, j);
      CutStays(r, feeds[..|feeds| - 1], j);
    }
  }

  lemma AllTiled(d: Directory, h: Bytes, ch: seq<Channel>, total: nat, r: LogRetention)
    requires r.Valid() && Complete(d, h, ch, total, r) && KeepsAll(h, total, r)
    ensures Tiled(d, |h|)
  {
  }

  lemma TiledStep(s: Stream, r: LogRetention, f: Feed)
    requires r.Valid() && SoundStream(s, r) && Ready(s, f.channel, f.text)
    ensures var t := AfterAppend(s, r, f.channel, f.inputLength, f.text);
            Tiled(t.d, |t.h|) <==>
              || KeepsAll(t.h, t.row.totalBytes, r) || KeepsAll(s.h, s.row.totalBytes, r)
              || (Tiled(s.d, |s.h|) && TailBegin(t.h, r) == TailBegin(s.h, r))
  {
    var t := AfterAppend(s, r, f.channel, f.inputLength, f.text);
    AppendIsSound(s, r, f.channel, f.inputLength, f.text);
    if KeepsAll(t.h, t.row.totalBytes, r) {
      AllTiled(t.d, t.h, t.ch, t.row.totalBytes, r);
    } else {
      TiledAfterAppend(s.d, s.h, s.ch, s.row.totalBytes, f.channel, f.text, t.row.totalBytes, r);
    }
  }

  /** The last tail is the same as all earlier ones if it is the same as the one before. */
  lemma LastTail(r: LogRetention, feeds: seq<Feed>)
    requires r.Valid() && |feeds| > 0 && OneTail(r, feeds[..|feeds| - 1])
    ensures var n := |feeds|;
            (forall j: nat | j < n && CutAt(r, feeds, j) :: TailAt(r, feeds, j) == TailAt(r, feeds, n))
            <==> (CutAt(r, feeds, n - 1) ==> TailAt(r, feeds, n - 1) == TailAt(r, feeds, n))
  {
    var n, init := |feeds|, feeds[..|feeds| - 1];
    forall j: nat | j < n && CutAt(r, feeds, j)
      ensures CutAt(r, feeds, n - 1) && TailAt(r, feeds, j) == TailAt(r, feeds, n - 1)
    {
      Prefix(feeds, j);
      Prefix(feeds, n - 1);
      CutStays(r, init, j);
      assert init[..n - 1] == init;
      assert CutAt(r, init, j) && CutAt(r, init, n - 1);
      assert TailAt(r, init, j) == TailAt(r, init, n - 1);
    }
  }

  lemma OneTailSnoc(r: LogRetention, feeds: seq<Feed>)
    requires r.Valid() && |feeds| > 0
    ensures var n := |feeds|;
            OneTail(r, feeds) <==>
              || !CutAt(r, feeds, n) || !CutAt(r, feeds, n - 1)
              || (OneTail(r, feeds[..n - 1]) && TailAt(r, feeds, n) == TailAt(r, feeds, n - 1))
  {
    var n, init := |feeds|, feeds[..|feeds| - 1];
    OneTailStep(r, feeds);
    if OneTail(r, init) {
      LastTail(r, feeds);
    }
    if !CutAt(r, feeds, n) || !CutAt(r, feeds, n - 1) {
      NoEarlierCut(r, feeds);
    }
  }

  lemma NoEarlierCut(r: LogRetention, feeds: seq<Feed>)
    requires r.Valid() && |feeds| > 0 && (!CutAt(r, feeds, |feeds|) || !CutAt(r, feeds, |feeds| - 1))
    ensures var init := feeds[..|feeds| - 1];
            forall j: nat | j < |init| :: !CutAt(r, init, j)
    ensures !CutAt(r, feeds, |feeds|) ==> !CutAt(r, feeds, |feeds| - 1)
    ensures OneTail(r, feeds[..|feeds| - 1])
  {
    var n, init := |feeds|, feeds[..|feeds| - 1];
    assert feeds[..n] == feeds && init[..n - 1] == init;
    if CutAt(r, feeds, n - 1) {
      CutStays(r, feeds, n - 1);
    }
    forall j: nat | j < n - 1
      ensures !CutAt(r, init, j)
    {
      if CutAt(r, init, j) {
        CutStays(r, init, j);
      }
    }
  }

  /** After any sequence of appends, marker and chunks account for every cursor if and only if no two
      cuts kept different tails: a stream whose second cut removed something never tiles again. */
  lemma {:induction false} TiledIff(r: LogRetention, feeds: seq<Feed>)
    requires r.Valid() && Feedable(feeds)
    ensures Tiled(StreamAfter(r, feeds).d, |TextOf(feeds)|) <==> OneTail(r, feeds)
    decreases |feeds|
  {
    var n := |feeds|;
    if n > 0 {
      var init := feeds[..n - 1];
      FeedableInit(feeds);
      TiledIff(r, init);
      SoundIsReady(StreamAfter(r, init), r, feeds[n - 1].channel, feeds[n - 1].text);
      TiledStep(StreamAfter(r, init), r, feeds[n - 1]);
      OneTailSnoc(r, feeds);
      assert feeds[..n] == feeds;
    }
  }

  lemma OneMoreFeed(feeds: seq<Feed>, f: Feed)
    ensures TextOf(feeds + [f]) == TextOf(feeds) + f.text && RawOf(feeds + [f]) == RawOf(feeds) + f.inputLength
  {
    assert (feeds + [f])[..|feeds|] == feeds;
  }

  lemma OneByteTail(h: Bytes, r: LogRetention)
    requires r.Valid() && forall i | 0 <= i < |h| :: !Continuation(h[i])
    ensures TailBegin(h, r) == TailStart(h, r)
  {
  }

  lemma TwoTails(r: LogRetention, feeds: seq<Feed>)
    requires r == LogRetention(2, 1)
    requires feeds == [Feed(Stdout, 4, [97, 98, 99, 100]), Feed(Stdout, 2, [101, 102])]
    ensures Feedable(feeds) && CutAt(r, feeds, 1) && CutAt(r, feeds, 2)
    ensures TailAt(r, feeds, 1) == 3 && TailAt(r, feeds, 2) == 5
  {
    var a, b := feeds[0].text, feeds[1].text;
    OneMoreFeed([], feeds[0]);
    OneMoreFeed([feeds[0]], feeds[1]);
    assert feeds[..2] == [feeds[0]] + [feeds[1]] == feeds && feeds[..1] == [] + [feeds[0]] == [feeds[0]];
    assert TextOf(feeds[..1]) == [] + a == a && TextOf(feeds) == a + b;
    OneByteTail(a, r);
    OneByteTail(a + b, r);
  }

  /** A stream that loses its tiling: limit two, head one, "abcd" and then "ef". */
  lemma TilingLost(r: LogRetention, feeds: seq<Feed>)
    requires r == LogRetention(2, 1)
    requires feeds == [Feed(Stdout, 4, [97, 98, 99, 100]), Feed(Stdout, 2, [101, 102])]
    ensures r.Valid() && Feedable(feeds) && !Tiled(StreamAfter(r, feeds).d, |TextOf(feeds)|)
  {
    TwoTails(r, feeds);
    TiledIff(r, feeds);
  }
}
