/** What a log stream holds after any sequence of completed appends. `StreamAfter` is the state that the
    class `LogStream` computes from a new stream as long as no append fails. */
module LogTheorems {
  import opened Common
  import opened Text
  import opened LogNames
  import opened LogDirectory
  import opened LogPaging
  import opened LogStore

  /** One append: the raw bytes counted, and the redacted, decoded text written. */
  datatype Feed = Feed(channel: Channel, inputLength: nat, text: Bytes)

  function TextOf(feeds: seq<Feed>): Bytes {
    if |feeds| == 0 then [] else TextOf(feeds[..|feeds| - 1]) + feeds[|feeds| - 1].text
  }

  function RawOf(feeds: seq<Feed>): nat {
    if |feeds| == 0 then 0 else RawOf(feeds[..|feeds| - 1]) + feeds[|feeds| - 1].inputLength
  }

  /** Every text is UTF-8, no input is empty, and cursors stay below 2^64. */
  ghost predicate Feedable(feeds: seq<Feed>) {
    && (forall k | 0 <= k < |feeds| :: IsText(feeds[k].text) && feeds[k].inputLength > 0)
    && |TextOf(feeds)| < U64_BOUND
  }

  lemma FeedableInit(feeds: seq<Feed>)
    requires Feedable(feeds) && |feeds| > 0
    ensures Feedable(feeds[..|feeds| - 1])
  {
  }

  ghost function StreamAfter(r: LogRetention, feeds: seq<Feed>): (s: Stream)
    requires r.Valid() && Feedable(feeds)
    ensures SoundStream(s, r) && s.h == TextOf(feeds) && s.row.totalBytes == RawOf(feeds)
    decreases |feeds|
  {
    if |feeds| == 0 then
      EmptyIsSound(r);
      EMPTY_STREAM
    else
      var n := |feeds| - 1;
      FeedableInit(feeds);
      var s, f := StreamAfter(r, feeds[..n]), feeds[n];
      SoundIsReady(s, r, f.channel, f.text);
      AppendIsSound(s, r, f.channel, f.inputLength, f.text);
      AfterAppend(s, r, f.channel, f.inputLength, f.text)
  }

  // ---- Which characters are on disk ----

  /** After any sequence of appends, character by character: everything is kept until both the raw
      total and the text pass the limit; then exactly the characters that end inside the head or
      start inside the tail. */
  lemma CanonicalRetention(r: LogRetention, feeds: seq<Feed>, i: nat)
    requires r.Valid() && Feedable(feeds)
    ensures var d, h := StreamAfter(r, feeds).d, TextOf(feeds);
            && (i >= |h| ==> !Covers(d, i))
            && (i < |h| ==> (Covers(d, i) <==>
                  (|| RawOf(feeds) <= r.rawLimitBytes
                   || |h| <= r.rawLimitBytes
                   || CharEnd(h, i) <= r.headBytes
                   || CharStart(h, i) >= |h| - (r.rawLimitBytes - r.headBytes))))
  {
    var h := StreamAfter(r, feeds).h;
    if i < |h| && |h| > r.rawLimitBytes {
      KeptCharacters(h, r.headBytes, |h| - (r.rawLimitBytes - r.headBytes), i);
    }
  }

  // ---- The payload as text ----

  ghost predicate SlicesOf(cs: seq<DiskChunk>, h: Bytes, lo: nat) {
    && (forall k | 0 <= k < |cs| :: lo <= cs[k].start < cs[k].end <= |h|)
    && (forall k | 0 <= k < |cs| && !cs[k].marker :: cs[k].text == h[cs[k].start..cs[k].end])
    && (forall i, j | 0 <= i < j < |cs| :: cs[i].end <= cs[j].start)
  }

  /** Positions from `lo` on that are before `a` or from `b` on. */
  predicate Wanted(lo: nat, a: nat, b: nat, n: nat, i: nat) {
    lo <= i < n && (i < a || i >= b)
  }

  ghost predicate Holds(cs: seq<DiskChunk>, h: Bytes, lo: nat, a: nat, b: nat) {
    forall i: nat :: InList(cs, i) <==> Wanted(lo, a, b, |h|, i)
  }

  function Rest(h: Bytes, lo: nat, a: nat, b: nat): Bytes
    requires lo <= |h| && a <= b <= |h|
  {
    (if lo < a then h[lo..a] else []) + h[Max(lo, b)..]
  }

  /** After the first chunk: the others start behind it. */
  lemma RestHolds(cs: seq<DiskChunk>, h: Bytes, lo: nat, a: nat, b: nat)
    requires |cs| > 0 && SlicesOf(cs, h, lo) && a <= b <= |h| && Holds(cs, h, lo, a, b) && !cs[0].marker
    ensures SlicesOf(cs[1..], h, cs[0].end) && Holds(cs[1..], h, cs[0].end, a, b)
  {
    var c, rest := cs[0], cs[1..];
    assert forall k | 0 <= k < |rest| :: rest[k] == cs[k + 1];
    forall i: nat
      ensures InList(rest, i) <==> Wanted(c.end, a, b, |h|, i)
    {
      InListStep(cs, i);
      if InList(rest, i) {
        var k :| 0 <= k < |rest| && Within(rest[k], i);
        assert cs[0].end <= cs[k + 1].start;
      }
      if i < c.start {
        NothingBefore(cs, i);
      }
    }
  }

  lemma NothingBefore(cs: seq<DiskChunk>, i: nat)
    requires |cs| > 0 && i < cs[0].start && forall j | 0 < j < |cs| :: cs[0].start <= cs[j].start
    ensures !InList(cs, i)
  {
  }

  /** The first payload chunk starts at the first wanted position and does not cross the gap. */
  lemma FirstChunk(cs: seq<DiskChunk>, h: Bytes, lo: nat, a: nat, b: nat)
    requires |cs| > 0 && SlicesOf(cs, h, lo) && a <= b <= |h| && (a < b || a == 0) && Holds(cs, h, lo, a, b) && !cs[0].marker
    ensures cs[0].start == (if lo < a then lo else Max(lo, b))
    ensures cs[0].start < a ==> cs[0].end <= a
  {
    var c := cs[0];
    var first := if lo < a then lo else Max(lo, b);
    InListStep(cs, c.start);
    assert Within(c, c.start) && Wanted(lo, a, b, |h|, c.start);
    forall i: nat | i < c.start
      ensures !Wanted(lo, a, b, |h|, i)
    {
      NothingBefore(cs, i);
    }
    assert first < c.start ==> Wanted(lo, a, b, |h|, first);
    InListStep(cs, a);
    assert Within(c, a) ==> Wanted(lo, a, b, |h|, a);
  }

  lemma {:induction false} PayloadIs(cs: seq<DiskChunk>, h: Bytes, lo: nat, a: nat, b: nat)
    requires lo <= |h| && a <= b <= |h| && (a < b || a == 0) && SlicesOf(cs, h, lo) && Holds(cs, h, lo, a, b)
    ensures Payload(cs) == Rest(h, lo, a, b)
    decreases |cs|
  {
    if |cs| == 0 {
      NothingWanted(cs, h, lo, a, b);
    } else if cs[0].marker {
      SkipMarker(cs, h, lo, a, b);
      PayloadIs(cs[1..], h, lo, a, b);
    } else {
      FirstChunk(cs, h, lo, a, b);
      RestHolds(cs, h, lo, a, b);
      PayloadIs(cs[1..], h, cs[0].end, a, b);
      JoinSlices(h, cs[0].start, cs[0].end, lo, a, b);
    }
  }

  lemma NothingWanted(cs: seq<DiskChunk>, h: Bytes, lo: nat, a: nat, b: nat)
    requires lo <= |h| && a <= b <= |h| && |cs| == 0 && Holds(cs, h, lo, a, b)
    ensures Rest(h, lo, a, b) == []
  {
    assert !Wanted(lo, a, b, |h|, lo) && !Wanted(lo, a, b, |h|, Max(lo, b));
  }

  lemma SkipMarker(cs: seq<DiskChunk>, h: Bytes, lo: nat, a: nat, b: nat)
    requires |cs| > 0 && cs[0].marker && SlicesOf(cs, h, lo) && Holds(cs, h, lo, a, b)
    ensures SlicesOf(cs[1..], h, lo) && Holds(cs[1..], h, lo, a, b)
  {
    assert forall k | 0 <= k < |cs[1..]| :: cs[1..][k] == cs[k + 1];
    forall i: nat
      ensures InList(cs[1..], i) <==> InList(cs, i)
    {
      InListStep(cs, i);
    }
  }

  lemma JoinSlices(h: Bytes, s: nat, e: nat, lo: nat, a: nat, b: nat)
    requires lo <= s < e <= |h| && a <= b <= |h| && s == (if lo < a then lo else Max(lo, b)) && (s < a ==> e <= a)
    ensures h[s..e] + Rest(h, e, a, b) == Rest(h, lo, a, b)
  {
    if lo < a {
      assert h[lo..e] + (if e < a then h[e..a] else []) == h[lo..a];
      assert Max(e, b) == b == Max(lo, b);
    } else {
      assert h[s..e] + h[e..] == h[s..];
    }
  }

  /** The payload on disk is the whole text, or what is left of it when the middle between the
      rounded end of the head and the rounded start of the tail is taken out. */
  lemma RetainedText(r: LogRetention, feeds: seq<Feed>)
    requires r.Valid() && Feedable(feeds)
    ensures var s, h := StreamAfter(r, feeds), TextOf(feeds);
            Payload(ListingOf(s.d, s.h, s.ch))
            == if KeepsAll(h, RawOf(feeds), r) then h else h[..HeadEnd(h, r)] + h[TailBegin(h, r)..]
  {
    var s, h := StreamAfter(r, feeds), TextOf(feeds);
    var cs := ListingOf(s.d, s.h, s.ch);
    ListingSlices(s.d, cs, s.h, s.ch);
    var a := if KeepsAll(h, RawOf(feeds), r) then 0 else HeadEnd(h, r);
    var b := if KeepsAll(h, RawOf(feeds), r) then 0 else TailBegin(h, r);
    if !KeepsAll(h, RawOf(feeds), r) {
      assert HeadEnd(h, r) <= r.headBytes < TailStart(h, r) <= TailBegin(h, r);
    }
    forall i: nat
      ensures InList(cs, i) <==> Wanted(0, a, b, |h|, i)
    {
      ListingCovers(s.d, cs, i);
    }
    PayloadIs(cs, h, 0, a, b);
    assert h[0..a] == h[..a] && h[..0] == [] && h[0..] == h;
  }

  lemma ListingSlices(d: Directory, cs: seq<DiskChunk>, h: Bytes, ch: seq<Channel>)
    requires WellFormed(d, h, ch) && Listing(d, cs)
    ensures SlicesOf(cs, h, 0)
  {
    ListingInOrder(d, cs, h, ch);
    forall k | 0 <= k < |cs| && !cs[k].marker
      ensures cs[k].text == h[cs[k].start..cs[k].end]
    {
      assert EntryOk(NameOf(cs[k]), cs[k], h, ch);
    }
  }

  /** Two streams fed the same text and as many raw bytes hold the same payload, however the text
      was cut into appends and chunks and whatever channels it came from. */
  lemma SplitsDoNotMatter(r: LogRetention, one: seq<Feed>, other: seq<Feed>)
    requires r.Valid() && Feedable(one) && Feedable(other) && TextOf(one) == TextOf(other) && RawOf(one) == RawOf(other)
    ensures var s, t := StreamAfter(r, one), StreamAfter(r, other);
            && Payload(ListingOf(s.d, s.h, s.ch)) == Payload(ListingOf(t.d, t.h, t.ch))
            && s.row.nextCursor == t.row.nextCursor && s.row.truncated == t.row.truncated
  {
    RetainedText(r, one);
    RetainedText(r, other);
  }

  /** Once the raw total is over the limit the payload is within it, and once the text is over
      it too, at most six bytes short of it. */
  lemma PayloadBounds(r: LogRetention, feeds: seq<Feed>)
    requires r.Valid() && Feedable(feeds) && RawOf(feeds) > r.rawLimitBytes
    ensures var s := StreamAfter(r, feeds);
            var length := |Payload(ListingOf(s.d, s.h, s.ch))|;
            && length <= r.rawLimitBytes
            && (|TextOf(feeds)| > r.rawLimitBytes ==> length >= r.rawLimitBytes - 6)
  {
    RetainedText(r, feeds);
    var h := TextOf(feeds);
    assert IsText(StreamAfter(r, feeds).h);
    if |h| > r.rawLimitBytes {
      RoundingIsNear(h, r.headBytes);
      RoundingIsNear(h, TailStart(h, r));
    }
  }

  /** The row, in terms of the text and the files alone. */
  lemma RowIsExact(r: LogRetention, feeds: seq<Feed>)
    requires r.Valid() && Feedable(feeds)
    ensures var s := StreamAfter(r, feeds);
            && s.row.nextCursor == |TextOf(feeds)| && s.row.totalBytes == RawOf(feeds)
            && (s.row.truncated <==> RawOf(feeds) > r.rawLimitBytes)
            && s.row.retainedBytes == |Payload(ListingOf(s.d, s.h, s.ch))|
                                      + (if s.row.truncated && MarkerFile in s.d then |s.d[MarkerFile].text| else 0)
            && (forall n | n in s.d :: s.row.firstCursor <= s.d[n].start)
            && if s.d == map[] then s.row.firstCursor == (if s.row.truncated then |TextOf(feeds)| else 0)
               else exists n :: n in s.d && s.d[n].start == s.row.firstCursor
  {
    RowOfDisk(StreamAfter(r, feeds), r);
  }

  lemma RowOfDisk(s: Stream, r: LogRetention)
    requires SoundStream(s, r)
    ensures s.row.nextCursor == |s.h| && (s.row.truncated <==> s.row.totalBytes > r.rawLimitBytes)
    ensures s.row.retainedBytes == |Payload(ListingOf(s.d, s.h, s.ch))|
                                   + (if s.row.truncated && MarkerFile in s.d then |s.d[MarkerFile].text| else 0)
    ensures forall n | n in s.d :: s.row.firstCursor <= s.d[n].start
    ensures if s.d == map[] then s.row.firstCursor == (if s.row.truncated then |s.h| else 0)
            else exists n :: n in s.d && s.d[n].start == s.row.firstCursor
  {
    var cs := ListingOf(s.d, s.h, s.ch);
    WellFormedIsIndexed(s.d, s.h, s.ch);
    ListingIsList(s.d, cs);
    RetainedLength(s.d, cs, s.row.truncated);
    FirstIsLeast(s.d, cs);
  }

  /** What is on disk at a position is the byte appended there, from the channel it came from, in
      one file only, between the first and the next cursor. */
  lemma StoredBytesAreAppendedBytes(r: LogRetention, feeds: seq<Feed>, n: FileName, i: nat)
    requires r.Valid() && Feedable(feeds) && HoldsAt(StreamAfter(r, feeds).d, n, i)
    ensures var s := StreamAfter(r, feeds);
            && s.row.firstCursor <= i < |s.h| == s.row.nextCursor
            && s.d[n].text[i - s.d[n].start] == s.h[i] && s.d[n].channel == s.ch[i]
            && forall m | HoldsAt(s.d, m, i) :: m == n
  {
    StoredOnce(StreamAfter(r, feeds), r, n, i);
  }

  lemma StoredOnce(s: Stream, r: LogRetention, n: FileName, i: nat)
    requires SoundStream(s, r) && HoldsAt(s.d, n, i)
    ensures s.row.firstCursor <= i < |s.h| == s.row.nextCursor
    ensures s.d[n].text[i - s.d[n].start] == s.h[i] && s.d[n].channel == s.ch[i]
    ensures forall m | HoldsAt(s.d, m, i) :: m == n
  {
    assert EntryOk(n, s.d[n], s.h, s.ch);
    FirstCursorIsLeast(s, r, n);
    forall m | HoldsAt(s.d, m, i)
      ensures m == n
    {
      assert !Apart(s.d[m], s.d[n]);
    }
  }

  lemma FirstCursorIsLeast(s: Stream, r: LogRetention, n: FileName)
    requires SoundStream(s, r) && n in s.d
    ensures s.row.firstCursor <= s.d[n].start
  {
    var cs := ListingOf(s.d, s.h, s.ch);
    assert s.d[n] in cs;
  }

  // ---- Reading ----

  /** Every payload chunk a reader ever gets is the appended text at the cursors it names. */
  lemma {:induction false} FollowIsAppendedText(d: Directory, h: Bytes, ch: seq<Channel>, after: nat, limit: nat, p: LogChunk)
    requires WellFormed(d, h, ch) && Ordered(ListingOf(d, h, ch)) && p in Follow(ListingOf(d, h, ch), after, limit)
    ensures !p.marker ==> p.start < p.end <= |h| && p.text == h[p.start..p.end]
    decreases End(ListingOf(d, h, ch)) - after
  {
    var cs := ListingOf(d, h, ch);
    var page := Page(Pending(cs, after), after, limit);
    PageAdvances(cs, after, limit);
    if p in page {
      PageIsAppendedText(d, h, ch, after, limit, p);
    } else {
      FollowIsAppendedText(d, h, ch, PageEnd(page, after), limit, p);
    }
  }

  lemma PieceIsSlice(h: Bytes, ch: seq<Channel>, after: nat, p: LogChunk, c: DiskChunk)
    requires Faithful(c, h, ch) && PieceOf(p, c, after)
    ensures p.start < p.end <= |h| && p.text == h[p.start..p.end]
  {
    SliceOfSlice(h, c.start, c.end, p.start - c.start, p.end - c.start);
  }

  lemma PieceIsAppendedText(d: Directory, h: Bytes, ch: seq<Channel>, after: nat, p: LogChunk, c: DiskChunk)
    requires WellFormed(d, h, ch) && c in ListingOf(d, h, ch) && PieceOf(p, c, after)
    ensures !p.marker ==> p.start < p.end <= |h| && p.text == h[p.start..p.end]
  {
    assert EntryOk(NameOf(c), d[NameOf(c)], h, ch);
    if !p.marker {
      PieceIsSlice(h, ch, after, p, c);
    }
  }

  lemma PageIsAppendedText(d: Directory, h: Bytes, ch: seq<Channel>, after: nat, limit: nat, p: LogChunk)
    requires WellFormed(d, h, ch) && p in Page(Pending(ListingOf(d, h, ch), after), after, limit)
    ensures !p.marker ==> p.start < p.end <= |h| && p.text == h[p.start..p.end]
  {
    var cs := ListingOf(d, h, ch);
    ListingIsOrdered(d, cs, h, ch);
    PendingSuffices(cs, after);
    var pending := Pending(cs, after);
    PageIsFaithful(pending, after, limit);
    var k :| 0 <= k < |Page(pending, after, limit)| && Page(pending, after, limit)[k] == p;
    assert pending[k] in cs;
    PieceIsAppendedText(d, h, ch, after, p, pending[k]);
  }

  lemma ListedText(d: Directory, h: Bytes, ch: seq<Channel>, k: nat)
    requires WellFormed(d, h, ch) && k < |ListingOf(d, h, ch)| && forall j | 0 <= j < |h| :: !Continuation(h[j])
    ensures forall j | 0 <= j < |ListingOf(d, h, ch)[k].text| :: !Continuation(ListingOf(d, h, ch)[k].text[j])
  {
    var cs := ListingOf(d, h, ch);
    var c := cs[k];
    assert c in cs;
    assert EntryOk(NameOf(c), d[NameOf(c)], h, ch);
    if !c.marker {
      assert forall j | 0 <= j < |c.text| :: c.text[j] == h[c.start + j];
    }
  }

  /** Byte `i` is retained and its character starts at or after `after`. */
  ghost predicate Awaited(d: Directory, h: Bytes, after: nat, i: nat) {
    i < |h| && Covers(d, i) && CharStart(h, i) >= after
  }

  lemma SameCharacter(d: Directory, h: Bytes, ch: seq<Channel>, c: DiskChunk, after: nat, i: nat)
    requires WellFormed(d, h, ch) && NameOf(c) in d && d[NameOf(c)] == c && Within(c, i)
    ensures i < |h| && (DueIn(c, after, i) <==> CharStart(h, i) >= after)
  {
    assert EntryOk(NameOf(c), c, h, ch);
    SliceFloor(h, c.start, c.end, i);
  }

  lemma AwaitedIsDue(d: Directory, h: Bytes, ch: seq<Channel>, after: nat, i: nat)
    requires WellFormed(d, h, ch)
    ensures Due(ListingOf(d, h, ch), after, i) <==> Awaited(d, h, after, i)
  {
    var cs := ListingOf(d, h, ch);
    ListingCovers(d, cs, i);
    if Due(cs, after, i) {
      var k :| 0 <= k < |cs| && DueIn(cs[k], after, i);
      assert cs[k] in cs && Within(cs[k], i);
      SameCharacter(d, h, ch, cs[k], after, i);
    }
    if Awaited(d, h, after, i) {
      var k :| 0 <= k < |cs| && Within(cs[k], i);
      assert cs[k] in cs;
      SameCharacter(d, h, ch, cs[k], after, i);
    }
  }

  /** A reader who starts at `after`, asks for `limit` bytes a page and follows the end cursor gets
      every retained character from there on. */
  ghost predicate SeesEverything(s: Stream, after: nat, limit: nat)
    requires WellFormed(s.d, s.h, s.ch) && Ordered(ListingOf(s.d, s.h, s.ch))
  {
    forall i: nat | Awaited(s.d, s.h, after, i) :: Delivered(Follow(ListingOf(s.d, s.h, s.ch), after, limit), i)
  }

  /** Whatever was appended and wherever the reader starts: each character comes at most once and in
      order, and every retained one from there on comes if and only if no page skips or stalls. */
  lemma ReadersSeeEverything(r: LogRetention, feeds: seq<Feed>, after: nat, limit: nat)
    requires r.Valid() && Feedable(feeds)
    ensures var s := StreamAfter(r, feeds);
            var cs := ListingOf(s.d, s.h, s.ch);
            && Ordered(cs) && InOrder(Follow(cs, after, limit))
            && (SeesEverything(s, after, limit) <==> Smooth(cs, after, limit))
  {
    var s := StreamAfter(r, feeds);
    var cs := ListingOf(s.d, s.h, s.ch);
    ListingIsOrdered(s.d, cs, s.h, s.ch);
    FollowInOrder(cs, after, limit);
    FollowReadsEverything(cs, after, limit);
    forall i: nat
      ensures Due(cs, after, i) <==> Awaited(s.d, s.h, after, i)
    {
      AwaitedIsDue(s.d, s.h, s.ch, after, i);
    }
  }

  lemma ListingIsText(d: Directory, h: Bytes, ch: seq<Channel>, after: nat, k: nat)
    requires WellFormed(d, h, ch) && IsText(h) && k < |ListingOf(d, h, ch)|
    ensures IsText(ListingOf(d, h, ch)[k].text)
    ensures after >= |h| || IsBoundary(h, after) ==> CleanAt(ListingOf(d, h, ch)[k], after)
  {
    var c := ListingOf(d, h, ch)[k];
    assert c in ListingOf(d, h, ch);
    assert EntryOk(NameOf(c), c, h, ch);
    if !c.marker {
      SliceBoundaries(h, c.start, c.end);
    }
  }

  /** With a limit of at least four bytes, a reader who starts between two characters or at the end
      sees everything if and only if no page skips. */
  lemma FourBytesSuffice(r: LogRetention, feeds: seq<Feed>, after: nat, limit: nat)
    requires r.Valid() && Feedable(feeds) && limit >= 4 && (after >= |TextOf(feeds)| || IsBoundary(TextOf(feeds), after))
    ensures var s := StreamAfter(r, feeds);
            var cs := ListingOf(s.d, s.h, s.ch);
            Ordered(cs) && (SeesEverything(s, after, limit) <==> NeverSkips(cs, after, limit))
  {
    var s := StreamAfter(r, feeds);
    var cs := ListingOf(s.d, s.h, s.ch);
    ReadersSeeEverything(r, feeds, after, limit);
    forall k: nat | k < |cs|
      ensures IsText(cs[k].text) && CleanAt(cs[k], after)
    {
      ListingIsText(s.d, s.h, s.ch, after, k);
    }
    FourBytesSmooth(cs, after, limit);
  }

  /** With one-byte characters every reader who asks for anything sees everything. */
  lemma OneByteReadersSeeEverything(r: LogRetention, feeds: seq<Feed>, after: nat, limit: nat, i: nat)
    requires r.Valid() && Feedable(feeds) && limit >= 1 && after <= i && Covers(StreamAfter(r, feeds).d, i)
    requires forall j | 0 <= j < |TextOf(feeds)| :: !Continuation(TextOf(feeds)[j])
    ensures var s := StreamAfter(r, feeds);
            var cs := ListingOf(s.d, s.h, s.ch);
            Ordered(cs) && Delivered(Follow(cs, after, limit), i)
  {
    var s := StreamAfter(r, feeds);
    var cs := ListingOf(s.d, s.h, s.ch);
    ReadersSeeEverything(r, feeds, after, limit);
    forall k: nat, j | k < |cs| && 0 <= j < |cs[k].text|
      ensures !Continuation(cs[k].text[j])
    {
      ListedText(s.d, s.h, s.ch, k);
    }
    OneByteIsSmooth(cs, after, limit);
    CoversInside(s.d, s.h, s.ch, i);
    assert IsBoundary(s.h, i) && Awaited(s.d, s.h, after, i);
  }
}
