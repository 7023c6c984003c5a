/** A reader who follows a stream while it is written and cut: what it has got at any time. */
module LogReader {
  import opened Common
  import opened Text
  import opened LogNames
  import opened LogDirectory
  import opened LogPaging
  import opened LogStore
  import opened LogEdits
  import opened LogLeftovers
  import opened LogTheorems

  /** The stream is appended to, or the reader asks for a page from its cursor on. */
  datatype Action = Appending(feed: Feed) | Reading(limit: nat)

  function FeedsOf(actions: seq<Action>): seq<Feed>
    decreases |actions|
  {
    if |actions| == 0 then []
    else
      var last := actions[|actions| - 1];
      FeedsOf(actions[..|actions| - 1]) + (if last.Appending? then [last.feed] else [])
  }

  /** Where the reader is, all it has got, and whether a page skipped a character. */
  datatype View = View(cursor: nat, got: seq<LogChunk>, skipped: bool)

  /** One page. A reader whose cursor has expired is told the first cursor and goes on from there. */
  ghost function Asked(s: Stream, v: View, limit: nat): View
    requires WellFormed(s.d, s.h, s.ch)
  {
    if v.cursor < s.row.firstCursor then v.(cursor := s.row.firstCursor)
    else
      var pending := Pending(ListingOf(s.d, s.h, s.ch), v.cursor);
      var page := Page(pending, v.cursor, limit);
      View(PageEnd(page, v.cursor), v.got + page, v.skipped || SkipsCharacter(pending, v.cursor, limit))
  }

  lemma InitFeeds(actions: seq<Action>)
    requires |actions| > 0 && Feedable(FeedsOf(actions))
    ensures var last, before := actions[|actions| - 1], FeedsOf(actions[..|actions| - 1]);
            && Feedable(before)
            && FeedsOf(actions) == if last.Appending? then before + [last.feed] else before
  {
    var last, before := actions[|actions| - 1], FeedsOf(actions[..|actions| - 1]);
    if last.Appending? {
      FeedableInit(FeedsOf(actions));
      assert FeedsOf(actions)[..|FeedsOf(actions)| - 1] == before;
    } else {
      assert before + [] == before;
    }
  }

  /** The stream as it is when all actions are done. */
  ghost function Now(r: LogRetention, actions: seq<Action>): Stream
    requires r.Valid() && Feedable(FeedsOf(actions))
  {
    StreamAfter(r, FeedsOf(actions))
  }

  ghost function ViewAfter(r: LogRetention, actions: seq<Action>): View
    requires r.Valid() && Feedable(FeedsOf(actions))
    decreases |actions|
  {
    if |actions| == 0 then View(0, [], false)
    else
      InitFeeds(actions);
      var before, last := actions[..|actions| - 1], actions[|actions| - 1];
      if last.Appending? then ViewAfter(r, before) else Asked(Now(r, before), ViewAfter(r, before), last.limit)
  }

  // ---- What holds of a view ----

  /** Payload is got in order, each piece once, and is the text at its cursors. */
  ghost predicate Faithfully(h: Bytes, got: seq<LogChunk>) {
    && (forall k | 0 <= k < |got| && !got[k].marker ::
          got[k].start < got[k].end <= |h| && got[k].text == h[got[k].start..got[k].end])
    && (forall i, j | 0 <= i < j < |got| && !got[j].marker :: got[i].end <= got[j].start)
  }

  /** The reader stands between two characters, behind all it has got. */
  ghost predicate Standing(h: Bytes, v: View) {
    && v.cursor <= |h| && IsBoundary(h, v.cursor)
    && (forall k | 0 <= k < |v.got| :: v.got[k].end <= v.cursor)
  }

  /** Everything on disk that the reader has passed, it has got. */
  ghost predicate CaughtUp(d: Directory, v: View) {
    forall i: nat | i < v.cursor && Covers(d, i) :: Delivered(v.got, i)
  }

  /** Both ends of the removed range lie between two characters. */
  ghost predicate MarkerBetween(d: Directory, h: Bytes) {
    MarkerFile in d ==>
      && d[MarkerFile].start <= d[MarkerFile].end <= |h|
      && IsBoundary(h, d[MarkerFile].start) && IsBoundary(h, d[MarkerFile].end)
  }

  // ---- Appending ----

  lemma CutBetween(d: Directory, c: DiskChunk, h: Bytes, ch: seq<Channel>, r: LogRetention, tailStart: nat, at: nat)
    requires WellFormed(d, h, ch) && NameOf(c) in d && d[NameOf(c)] == c && !Skips(c, r, tailStart)
    requires at == c.start + PrefixLen(c, r) || at == c.start + SuffixStart(c, r, tailStart)
    ensures at <= |h| && IsBoundary(h, at)
  {
    assert EntryOk(NameOf(c), c, h, ch);
    CutAtBoundaries(c, r, tailStart, h, ch);
  }

  lemma DroppedInOrder(d: Directory, cs: seq<DiskChunk>, r: LogRetention, tailStart: nat)
    requires Indexed(d) && Holding(d, cs) && Pass(d, cs, r, tailStart).dropped.Some?
    ensures var p := Pass(d, cs, r, tailStart); p.dropped.value <= p.droppedEnd
  {
    ListedNamed(d, cs);
    SafePass(d, cs, r, tailStart);
  }

  lemma DroppedBetween(d: Directory, cs: seq<DiskChunk>, h: Bytes, ch: seq<Channel>, r: LogRetention, tailStart: nat)
    requires WellFormed(d, h, ch) && Holding(d, cs) && Pass(d, cs, r, tailStart).dropped.Some?
    ensures var p := Pass(d, cs, r, tailStart);
            p.dropped.value <= p.droppedEnd <= |h| && IsBoundary(h, p.dropped.value) && IsBoundary(h, p.droppedEnd)
  {
    var first, last := DroppedEnds(d, cs, r, tailStart);
    assert NameOf(first) in d && NameOf(last) in d;
    CutBetween(d, first, h, ch, r, tailStart, Pass(d, cs, r, tailStart).dropped.value);
    CutBetween(d, last, h, ch, r, tailStart, Pass(d, cs, r, tailStart).droppedEnd);
    WellFormedIsIndexed(d, h, ch);
    DroppedInOrder(d, cs, r, tailStart);
  }

  lemma CutMarkerBetween(d: Directory, cs: seq<DiskChunk>, h: Bytes, ch: seq<Channel>, r: LogRetention)
    requires r.Valid() && WellFormed(d, h, ch) && Listing(d, cs) && MarkerBetween(d, h)
    ensures MarkerBetween(Cut(d, cs, r, TailStart(h, r)), h)
  {
    var tail := TailStart(h, r);
    if Pass(d, cs, r, tail).dropped.Some? {
      DroppedBetween(d, cs, h, ch, r, tail);
    } else {
      PassIsEdited(d, cs, r, tail);
      PassSparesMarker(d, cs, r, tail);
    }
  }

  lemma LongerMarkerBetween(d: Directory, h: Bytes, t: Bytes)
    requires MarkerBetween(d, h) && IsText(t)
    ensures MarkerBetween(d, h + t)
  {
    AppendBoundaries(h, t);
  }

  lemma WrittenMarker(d: Directory, channel: Channel, parts: seq<Bytes>, at: nat)
    ensures var e := Written(d, channel, parts, at);
            (MarkerFile in e <==> MarkerFile in d) && (MarkerFile in d ==> e[MarkerFile] == d[MarkerFile])
    decreases |parts|
  {
  }

  lemma {:induction false} NowMarkerBetween(r: LogRetention, feeds: seq<Feed>)
    requires r.Valid() && Feedable(feeds)
    ensures MarkerBetween(StreamAfter(r, feeds).d, StreamAfter(r, feeds).h)
    decreases |feeds|
  {
    if |feeds| > 0 {
      var n := |feeds| - 1;
      FeedableInit(feeds);
      NowMarkerBetween(r, feeds[..n]);
      var s, f := StreamAfter(r, feeds[..n]), feeds[n];
      SoundIsReady(s, r, f.channel, f.text);
      AppendMarkerBetween(s, r, f.channel, f.inputLength, f.text);
    }
  }

  lemma AppendMarkerBetween(s: Stream, r: LogRetention, channel: Channel, inputLength: nat, text: Bytes)
    requires r.Valid() && SoundStream(s, r) && Ready(s, channel, text) && MarkerBetween(s.d, s.h)
    ensures var t := AfterAppend(s, r, channel, inputLength, text); MarkerBetween(t.d, t.h)
  {
    var h, ch := s.h + text, s.ch + seq(|text|, _ => channel);
    var e := Written(s.d, channel, Split(text, CHUNK_BYTES), |s.h|);
    WrittenMarker(s.d, channel, Split(text, CHUNK_BYTES), |s.h|);
    LongerMarkerBetween(s.d, s.h, text);
    if s.row.totalBytes + inputLength > r.rawLimitBytes {
      CutMarkerBetween(e, ListingOf(e, h, ch), h, ch, r);
    }
  }

  lemma LongerFaithfully(h: Bytes, t: Bytes, got: seq<LogChunk>)
    requires Faithfully(h, got)
    ensures Faithfully(h + t, got)
  {
    forall k | 0 <= k < |got| && !got[k].marker
      ensures got[k].text == (h + t)[got[k].start..got[k].end]
    {
      assert (h + t)[got[k].start..got[k].end] == h[got[k].start..got[k].end];
    }
  }

  /** What is on disk of the old text after an append was there before. */
  lemma AppendUncovers(s: Stream, r: LogRetention, channel: Channel, inputLength: nat, text: Bytes, i: nat)
    requires r.Valid() && SoundStream(s, r) && Ready(s, channel, text) && i < |s.h|
    requires Covers(AfterAppend(s, r, channel, inputLength, text).d, i)
    ensures Covers(s.d, i)
  {
    AppendIsSound(s, r, channel, inputLength, text);
    KeptStep(s.h, s.row.totalBytes, text, s.row.totalBytes + inputLength, r, i);
  }

  lemma AppendKeepsView(s: Stream, r: LogRetention, channel: Channel, inputLength: nat, text: Bytes, v: View)
    requires r.Valid() && SoundStream(s, r) && Ready(s, channel, text) && Faithfully(s.h, v.got) && Standing(s.h, v)
    ensures var t := AfterAppend(s, r, channel, inputLength, text);
            && Faithfully(t.h, v.got) && Standing(t.h, v) && (CaughtUp(s.d, v) ==> CaughtUp(t.d, v))
  {
    LongerFaithfully(s.h, text, v.got);
    AppendBoundaries(s.h, text);
    if CaughtUp(s.d, v) {
      forall i: nat | i < v.cursor && Covers(AfterAppend(s, r, channel, inputLength, text).d, i)
        ensures Delivered(v.got, i)
      {
        AppendUncovers(s, r, channel, inputLength, text, i);
      }
    }
  }

  // ---- Reading ----

  lemma PieceBehind(h: Bytes, d: Directory, ch: seq<Channel>, after: nat, p: LogChunk, c: DiskChunk)
    requires WellFormed(d, h, ch) && NameOf(c) in d && d[NameOf(c)] == c && PieceOf(p, c, after) && MarkerBetween(d, h)
    ensures p.end <= |h| && IsBoundary(h, p.end) && (!p.marker ==> after <= p.start)
  {
    assert EntryOk(NameOf(c), c, h, ch);
    if !c.marker {
      SliceBoundaries(h, c.start, c.end);
    }
  }

  /** A page read at `after`: where its pieces lie. */
  lemma PageLies(s: Stream, r: LogRetention, after: nat, limit: nat)
    requires SoundStream(s, r) && MarkerBetween(s.d, s.h)
    ensures var page := Page(Pending(ListingOf(s.d, s.h, s.ch), after), after, limit);
            && InOrder(page)
            && forall k | 0 <= k < |page| ::
                 page[k].start <= page[k].end <= |s.h| && IsBoundary(s.h, page[k].end) && (!page[k].marker
                   ==> after <= page[k].start)
  {
    var cs := ListingOf(s.d, s.h, s.ch);
    ListingIsOrdered(s.d, cs, s.h, s.ch);
    PendingPageInOrder(cs, after, limit);
    PendingSuffices(cs, after);
    var pending := Pending(cs, after);
    var page := Page(pending, after, limit);
    PageIsFaithful(pending, after, limit);
    PendingMembers(cs, after);
    forall k | 0 <= k < |page|
      ensures page[k].end <= |s.h| && IsBoundary(s.h, page[k].end) && (!page[k].marker ==> after <= page[k].start)
    {
      assert pending[k] in cs;
      PieceBehind(s.h, s.d, s.ch, after, page[k], pending[k]);
    }
  }

  lemma FaithfulPage(s: Stream, r: LogRetention, v: View, limit: nat)
    requires SoundStream(s, r) && MarkerBetween(s.d, s.h) && Faithfully(s.h, v.got) && Standing(s.h, v)
    ensures Faithfully(s.h, v.got + Page(Pending(ListingOf(s.d, s.h, s.ch), v.cursor), v.cursor, limit))
  {
    var page := Page(Pending(ListingOf(s.d, s.h, s.ch), v.cursor), v.cursor, limit);
    PageLies(s, r, v.cursor, limit);
    forall k | 0 <= k < |page|
      ensures !page[k].marker ==> page[k].start < page[k].end <= |s.h| && page[k].text == s.h[page[k].start..page[k].end]
    {
      PageIsAppendedText(s.d, s.h, s.ch, v.cursor, limit, page[k]);
    }
    FaithfullyConcat(s.h, v.got, page, v.cursor);
  }

  lemma FaithfullyConcat(h: Bytes, got: seq<LogChunk>, page: seq<LogChunk>, cursor: nat)
    requires Faithfully(h, got) && Faithfully(h, page)
    requires forall k | 0 <= k < |got| :: got[k].end <= cursor
    requires forall k | 0 <= k < |page| && !page[k].marker :: cursor <= page[k].start
    ensures Faithfully(h, got + page)
  {
    forall i, j | 0 <= i < j < |got + page| && !(got + page)[j].marker
      ensures (got + page)[i].end <= (got + page)[j].start
    {
      if j >= |got| && i < |got| {
        assert got[i].end <= cursor <= page[j - |got|].start;
      }
    }
  }

  lemma StandingBehindPage(s: Stream, r: LogRetention, v: View, limit: nat)
    requires SoundStream(s, r) && MarkerBetween(s.d, s.h) && Standing(s.h, v)
    ensures var page := Page(Pending(ListingOf(s.d, s.h, s.ch), v.cursor), v.cursor, limit);
            Standing(s.h, View(PageEnd(page, v.cursor), v.got + page, v.skipped)) && v.cursor <= PageEnd(page, v.cursor)
  {
    var cs := ListingOf(s.d, s.h, s.ch);
    var page := Page(Pending(cs, v.cursor), v.cursor, limit);
    PageLies(s, r, v.cursor, limit);
    if page != [] {
      ListingIsOrdered(s.d, cs, s.h, s.ch);
      PageAdvances(cs, v.cursor, limit);
      forall k | 0 <= k < |page|
        ensures page[k].end <= PageEnd(page, v.cursor)
      {
        assert k < |page| - 1 ==> page[k].end <= page[|page| - 1].start;
      }
    }
  }

  /** A page that skips nothing returns all that is on disk between its ends. */
  lemma PageCatchesUp(s: Stream, r: LogRetention, after: nat, limit: nat, i: nat)
    requires SoundStream(s, r) && after <= |s.h| && IsBoundary(s.h, after) && Covers(s.d, i)
    requires var pending := Pending(ListingOf(s.d, s.h, s.ch), after);
             !SkipsCharacter(pending, after, limit) && after <= i < PageEnd(Page(pending, after, limit), after)
    ensures Delivered(Page(Pending(ListingOf(s.d, s.h, s.ch), after), after, limit), i)
  {
    var cs := ListingOf(s.d, s.h, s.ch);
    ListingIsOrdered(s.d, cs, s.h, s.ch);
    PendingSuffices(cs, after);
    GaplessIff(Pending(cs, after), after, limit);
    CoversInside(s.d, s.h, s.ch, i);
    AwaitedIsDue(s.d, s.h, s.ch, after, i);
    assert !Misses(Pending(cs, after), after, limit, i);
  }

  lemma MissedIsOnDisk(s: Stream, r: LogRetention, after: nat, limit: nat, i: nat)
    requires SoundStream(s, r) && Misses(Pending(ListingOf(s.d, s.h, s.ch), after), after, limit, i)
    ensures Covers(s.d, i) && after <= i
  {
    var cs := ListingOf(s.d, s.h, s.ch);
    ListingIsOrdered(s.d, cs, s.h, s.ch);
    PendingSuffices(cs, after);
    AwaitedIsDue(s.d, s.h, s.ch, after, i);
    DueIsAfter(Pending(cs, after), after, i);
  }

  lemma SkipMisses(pending: seq<DiskChunk>, after: nat, limit: nat) returns (i: nat)
    requires Ordered(pending) && forall k | 0 <= k < |pending| :: pending[k].end > after
    requires SkipsCharacter(pending, after, limit)
    ensures Misses(pending, after, limit, i)
  {
    GaplessIff(pending, after, limit);
    i :| Misses(pending, after, limit, i);
  }

  lemma PendingOrdered(cs: seq<DiskChunk>, after: nat)
    requires Ordered(cs)
    ensures Ordered(Pending(cs, after)) && forall k | 0 <= k < |Pending(cs, after)| :: Pending(cs, after)[k].end > after
  {
    PendingSuffices(cs, after);
  }

  lemma SkippedIsMissed(s: Stream, r: LogRetention, after: nat, limit: nat) returns (i: nat)
    requires SoundStream(s, r) && SkipsCharacter(Pending(ListingOf(s.d, s.h, s.ch), after), after, limit)
    ensures Misses(Pending(ListingOf(s.d, s.h, s.ch), after), after, limit, i)
  {
    ListingIsOrdered(s.d, ListingOf(s.d, s.h, s.ch), s.h, s.ch);
    PendingOrdered(ListingOf(s.d, s.h, s.ch), after);
    i := SkipMisses(Pending(ListingOf(s.d, s.h, s.ch), after), after, limit);
  }

  lemma NotDelivered(a: seq<LogChunk>, b: seq<LogChunk>, i: nat)
    requires (forall k | 0 <= k < |a| :: a[k].end <= i) && !Delivered(b, i)
    ensures !Delivered(a + b, i)
  {
    forall k | 0 <= k < |a + b|
      ensures !Carries((a + b)[k], i)
    {
      assert k >= |a| ==> !Carries(b[k - |a|], i);
    }
  }

  /** And one that skips a character has passed a byte on disk that the reader never gets. */
  lemma SkippedIsLost(s: Stream, r: LogRetention, v: View, limit: nat) returns (i: nat)
    requires SoundStream(s, r) && Standing(s.h, v)
    requires SkipsCharacter(Pending(ListingOf(s.d, s.h, s.ch), v.cursor), v.cursor, limit)
    ensures var page := Page(Pending(ListingOf(s.d, s.h, s.ch), v.cursor), v.cursor, limit);
            Covers(s.d, i) && v.cursor <= i < PageEnd(page, v.cursor) && !Delivered(v.got + page, i)
  {
    i := SkippedIsMissed(s, r, v.cursor, limit);
    MissedIsOnDisk(s, r, v.cursor, limit, i);
    NotDelivered(v.got, Page(Pending(ListingOf(s.d, s.h, s.ch), v.cursor), v.cursor, limit), i);
  }

  lemma ExpiredCursor(s: Stream, r: LogRetention)
    requires SoundStream(s, r) && MarkerBetween(s.d, s.h)
    ensures s.row.firstCursor <= |s.h| && IsBoundary(s.h, s.row.firstCursor)
    ensures forall i: nat | i < s.row.firstCursor :: !Covers(s.d, i)
  {
    var cs := ListingOf(s.d, s.h, s.ch);
    if cs != [] {
      assert cs[0] in cs && EntryOk(NameOf(cs[0]), cs[0], s.h, s.ch);
    }
    forall n | n in s.d
      ensures s.row.firstCursor <= s.d[n].start
    {
      FirstCursorIsLeast(s, r, n);
    }
  }

  lemma PageKeepsView(s: Stream, r: LogRetention, v: View, limit: nat)
    requires SoundStream(s, r) && MarkerBetween(s.d, s.h) && Faithfully(s.h, v.got) && Standing(s.h, v)
    requires v.cursor >= s.row.firstCursor
    ensures var w := Asked(s, v, limit); Faithfully(s.h, w.got) && Standing(s.h, w)
  {
    FaithfulPage(s, r, v, limit);
    StandingBehindPage(s, r, v, limit);
  }

  /** A reader who was caught up is after a page if and only if the page skipped no character. */
  lemma CaughtUpIff(s: Stream, r: LogRetention, v: View, limit: nat)
    requires SoundStream(s, r) && MarkerBetween(s.d, s.h) && Standing(s.h, v) && v.cursor >= s.row.firstCursor
             && CaughtUp(s.d, v)
    ensures CaughtUp(s.d, Asked(s, v, limit))
       <==> !SkipsCharacter(Pending(ListingOf(s.d, s.h, s.ch), v.cursor), v.cursor, limit)
  {
    var w := Asked(s, v, limit);
    var page := Page(Pending(ListingOf(s.d, s.h, s.ch), v.cursor), v.cursor, limit);
    if SkipsCharacter(Pending(ListingOf(s.d, s.h, s.ch), v.cursor), v.cursor, limit) {
      var i := SkippedIsLost(s, r, v, limit);
    } else {
      forall i: nat | i < w.cursor && Covers(s.d, i)
        ensures Delivered(w.got, i)
      {
        if i >= v.cursor {
          PageCatchesUp(s, r, v.cursor, limit, i);
        }
        DeliveredConcat(v.got, page, i);
      }
    }
  }

  lemma AskedKeepsView(s: Stream, r: LogRetention, v: View, limit: nat)
    requires SoundStream(s, r) && MarkerBetween(s.d, s.h) && Faithfully(s.h, v.got) && Standing(s.h, v)
    ensures var w := Asked(s, v, limit);
            && Faithfully(s.h, w.got) && Standing(s.h, w) && (CaughtUp(s.d, v) && !w.skipped ==> CaughtUp(s.d, w))
  {
    if v.cursor < s.row.firstCursor {
      ExpiredCursor(s, r);
    } else {
      PageKeepsView(s, r, v, limit);
      if CaughtUp(s.d, v) {
        CaughtUpIff(s, r, v, limit);
      }
    }
  }

  /** However appends, cuts and pages alternate: a reader who started with the stream has got pieces of its
      text in order, none twice; and if no page skipped a character, then all of what is still on disk
      before its cursor. */
  lemma {:induction false} ReaderKeepsUp(r: LogRetention, actions: seq<Action>)
    requires r.Valid() && Feedable(FeedsOf(actions))
    ensures var s, v := Now(r, actions), ViewAfter(r, actions);
            && Faithfully(s.h, v.got) && Standing(s.h, v)
            && (!v.skipped ==> CaughtUp(s.d, v))
    decreases |actions|
  {
    if |actions| > 0 {
      InitFeeds(actions);
      var before, last := actions[..|actions| - 1], actions[|actions| - 1];
      ReaderKeepsUp(r, before);
      var s, v := Now(r, before), ViewAfter(r, before);
      if last.Appending? {
        AppendStep(r, FeedsOf(before), last.feed, v);
      } else {
        NowMarkerBetween(r, FeedsOf(before));
        AskedKeepsView(s, r, v, last.limit);
      }
    }
  }

  lemma AppendStep(r: LogRetention, feeds: seq<Feed>, f: Feed, v: View)
    requires r.Valid() && Feedable(feeds) && Feedable(feeds + [f])
    requires var s := StreamAfter(r, feeds); Faithfully(s.h, v.got) && Standing(s.h, v)
    ensures var s, t := StreamAfter(r, feeds), StreamAfter(r, feeds + [f]);
            && Faithfully(t.h, v.got) && Standing(t.h, v) && (CaughtUp(s.d, v) ==> CaughtUp(t.d, v))
  {
    var s, all := StreamAfter(r, feeds), feeds + [f];
    assert all[..|all| - 1] == feeds && all[|all| - 1] == f;
    SoundIsReady(s, r, f.channel, f.text);
    AppendKeepsView(s, r, f.channel, f.inputLength, f.text, v);
  }
}
