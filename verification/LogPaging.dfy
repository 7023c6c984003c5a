/** Reading a stream page by page: which bytes one page returns, and what a reader who
    follows the last end cursor has seen at the end. */
module LogPaging {
  import opened Common
  import opened Text
  import opened LogNames
  import opened LogDirectory

  /** One returned chunk. `marker` is not sent to the client; the model keeps it to tell the
      truncation notice from payload. */
  datatype LogChunk = LogChunk(start: nat, end: nat, channel: Channel, text: Bytes, marker: bool)

  function Offset(c: DiskChunk, after: nat): nat {
    if c.marker then 0 else Ceil(c.text, Min(Minus(after, c.start), |c.text|))
  }

  /** The part of a chunk that `after` has not passed. */
  function Source(c: DiskChunk, after: nat): Bytes {
    c.text[Offset(c, after)..]
  }

  function Take(c: DiskChunk, after: nat, remaining: nat): (take: nat)
    ensures take <= |Source(c, after)| && take <= remaining
  {
    Floor(Source(c, after), Min(|Source(c, after)|, remaining))
  }

  function Piece(c: DiskChunk, after: nat, take: nat): LogChunk
    requires take <= |Source(c, after)|
  {
    var start := c.start + Offset(c, after);
    LogChunk(start, if take == |Source(c, after)| || c.marker then c.end else start + take,
             c.channel, Source(c, after)[..take], c.marker)
  }

  /** The chunks that can contribute to a page. */
  function Pending(cs: seq<DiskChunk>, after: nat): seq<DiskChunk> {
    if cs == [] then []
    else (if cs[0].end > after then [cs[0]] else []) + Pending(cs[1..], after)
  }

  function Page(cs: seq<DiskChunk>, after: nat, remaining: nat): seq<LogChunk> {
    if cs == [] || remaining == 0 then []
    else
      var take := Take(cs[0], after, remaining);
      if take == 0 then []
      else [Piece(cs[0], after, take)] + Page(cs[1..], after, remaining - take)
  }

  function PageEnd(page: seq<LogChunk>, after: nat): nat {
    if page == [] then after else page[|page| - 1].end
  }

  lemma PageStep(cs: seq<DiskChunk>, after: nat, remaining: nat)
    requires |cs| > 0 && remaining > 0 && Take(cs[0], after, remaining) > 0
    ensures var take := Take(cs[0], after, remaining);
            Page(cs, after, remaining) == [Piece(cs[0], after, take)] + Page(cs[1..], after, remaining - take)
  {
  }

  lemma PageStops(cs: seq<DiskChunk>, after: nat, remaining: nat)
    requires |cs| > 0 && Take(cs[0], after, remaining) == 0
    ensures Page(cs, after, remaining) == []
  {
  }

  lemma Regroup(a: seq<LogChunk>, p: LogChunk, b: seq<LogChunk>)
    ensures a + ([p] + b) == (a + [p]) + b
  {
  }

  predicate Carries(p: LogChunk, i: nat) {
    !p.marker && p.start <= i < p.end
  }

  /** The page returns the byte at cursor position `i`. */
  ghost predicate Delivered(page: seq<LogChunk>, i: nat) {
    exists k :: 0 <= k < |page| && Carries(page[k], i)
  }

  predicate GoodChunk(c: DiskChunk) {
    c.start < c.end && c.text != [] && (!c.marker ==> |c.text| == c.end - c.start)
  }

  /** What a directory listing is: good chunks in cursor order. */
  ghost predicate Ordered(cs: seq<DiskChunk>) {
    && (forall k | 0 <= k < |cs| :: GoodChunk(cs[k]))
    && (forall i, j | 0 <= i < j < |cs| :: cs[i].end <= cs[j].start)
  }

  /** `after` does not lie inside a character. */
  ghost predicate OnBoundary(cs: seq<DiskChunk>, after: nat) {
    forall k | 0 <= k < |cs| :: CleanAt(cs[k], after)
  }

  ghost predicate CleanAt(c: DiskChunk, after: nat) {
    !c.marker && c.start <= after < c.end && after - c.start <= |c.text| ==> IsBoundary(c.text, after - c.start)
  }

  ghost predicate OneByteText(cs: seq<DiskChunk>) {
    forall k, i | 0 <= k < |cs| && 0 <= i < |cs[k].text| :: !Continuation(cs[k].text[i])
  }

  lemma OrderedTail(cs: seq<DiskChunk>, after: nat)
    requires Ordered(cs) && cs != []
    ensures Ordered(cs[1..])
    ensures OnBoundary(cs, after) ==> OnBoundary(cs[1..], after)
    ensures OneByteText(cs) ==> OneByteText(cs[1..])
    ensures forall k | 0 <= k < |cs[1..]| :: cs[1..][k].start >= cs[0].end
  {
    assert forall k | 0 <= k < |cs[1..]| :: cs[1..][k] == cs[k + 1];
  }

  // ---- Every page is a faithful, ordered selection ----

  ghost predicate PieceOf(p: LogChunk, c: DiskChunk, after: nat) {
    && p.channel == c.channel && p.marker == c.marker && p.text != []
    && (if c.marker then p.start == c.start && p.end == c.end && p.text <= c.text
        else
          && c.start <= p.start < p.end <= c.end && after <= p.start
          && p.end - c.start <= |c.text| && p.text == c.text[p.start - c.start..p.end - c.start]
          && IsBoundary(c.text, p.start - c.start) && IsBoundary(c.text, p.end - c.start))
  }

  function TextTotal(page: seq<LogChunk>): nat {
    if page == [] then 0 else |page[0].text| + TextTotal(page[1..])
  }

  lemma OffsetBounds(c: DiskChunk, after: nat)
    requires GoodChunk(c) && !c.marker && c.end > after
    ensures Offset(c, after) <= |c.text| && IsBoundary(c.text, Offset(c, after))
    ensures after <= c.start + Offset(c, after)
  {
  }

  lemma PieceRuns(c: DiskChunk, after: nat, take: nat)
    requires GoodChunk(c) && !c.marker && c.end > after && 0 < take <= |Source(c, after)|
    ensures Piece(c, after, take).start == c.start + Offset(c, after)
    ensures Piece(c, after, take).end == c.start + Offset(c, after) + take <= c.end
    ensures Piece(c, after, take).text == c.text[Offset(c, after)..Offset(c, after) + take]
  {
    OffsetBounds(c, after);
  }

  lemma PieceIsFaithful(c: DiskChunk, after: nat, take: nat)
    requires GoodChunk(c) && c.end > after && 0 < take <= |Source(c, after)| && IsBoundary(Source(c, after), take)
    ensures PieceOf(Piece(c, after, take), c, after)
  {
    if !c.marker {
      var o := Offset(c, after);
      OffsetBounds(c, after);
      PieceRuns(c, after, take);
      assert IsBoundary(c.text, o + take) by {
        SliceBoundaries(c.text, o, |c.text|);
        assert c.text[o..|c.text|] == Source(c, after);
      }
    }
  }

  /** The k-th returned chunk is a piece of the k-th pending one. */
  lemma {:induction false} PagePieces(cs: seq<DiskChunk>, after: nat, remaining: nat, k: nat)
    requires k < |Page(cs, after, remaining)|
    ensures k < |cs|
    ensures var take := |Page(cs, after, remaining)[k].text|;
            && 0 < take <= |Source(cs[k], after)| && IsBoundary(Source(cs[k], after), take)
            && Page(cs, after, remaining)[k] == Piece(cs[k], after, take)
  {
    if k > 0 {
      PagePieces(cs[1..], after, remaining - Take(cs[0], after, remaining), k - 1);
    }
  }

  lemma {:induction false} PageFitsLimit(cs: seq<DiskChunk>, after: nat, remaining: nat)
    ensures TextTotal(Page(cs, after, remaining)) <= remaining
  {
    if cs != [] && remaining != 0 && Take(cs[0], after, remaining) != 0 {
      PageFitsLimit(cs[1..], after, remaining - Take(cs[0], after, remaining));
    }
  }

  /** For any text and any limit: the k-th returned chunk is whole characters of the k-th pending
      chunk, at the cursors it names; chunks are in order and disjoint, and fit the limit. */
  lemma PageIsFaithful(cs: seq<DiskChunk>, after: nat, remaining: nat)
    requires Ordered(cs) && forall k | 0 <= k < |cs| :: cs[k].end > after
    ensures var page := Page(cs, after, remaining);
            && |page| <= |cs| && TextTotal(page) <= remaining
            && (forall k | 0 <= k < |page| :: PieceOf(page[k], cs[k], after))
            && (forall i, j | 0 <= i < j < |page| :: page[i].end <= page[j].start)
  {
    var page := Page(cs, after, remaining);
    PageFitsLimit(cs, after, remaining);
    if page != [] {
      PagePieces(cs, after, remaining, |page| - 1);
    }
    forall k | 0 <= k < |page|
      ensures PieceOf(page[k], cs[k], after)
    {
      PagePieces(cs, after, remaining, k);
      PieceIsFaithful(cs[k], after, |page[k].text|);
    }
    forall i, j | 0 <= i < j < |page|
      ensures page[i].end <= page[j].start
    {
      assert PieceOf(page[i], cs[i], after) && PieceOf(page[j], cs[j], after);
      assert cs[i].end <= cs[j].start;
    }
  }

  /** Behind its first k pieces, `page` is a page of `rest` under what they leave of the limit. */
  predicate GoesOn(page: seq<LogChunk>, k: nat, rest: seq<DiskChunk>, after: nat, left: nat, limit: nat) {
    k <= |page| && TextTotal(page[..k]) + left == limit && page[k..] == Page(rest, after, left)
  }

  lemma {:induction false} TextTotalSnoc(page: seq<LogChunk>, p: LogChunk)
    ensures TextTotal(page + [p]) == TextTotal(page) + |p.text|
  {
    if page == [] {
      assert [] + [p] == [p];
    } else {
      assert (page + [p])[1..] == page[1..] + [p];
      TextTotalSnoc(page[1..], p);
    }
  }

  lemma GoesOnStep(page: seq<LogChunk>, k: nat, rest: seq<DiskChunk>, after: nat, left: nat, limit: nat)
    requires GoesOn(page, k, rest, after, left, limit) && k < |page|
    ensures |rest| > 0 && |page[k].text| <= left && GoesOn(page, k + 1, rest[1..], after, left - |page[k].text|, limit)
  {
    assert page[k..][0] == page[k] && page[k..][1..] == page[k + 1..];
    PageStep(rest, after, left);
    assert page[..k + 1] == page[..k] + [page[k]];
    TextTotalSnoc(page[..k], page[k]);
  }

  /** A page goes on after its k-th piece as a page of the later chunks under what is left of the limit. */
  lemma {:induction false} PageFrom(cs: seq<DiskChunk>, after: nat, limit: nat, k: nat) returns (left: nat)
    requires k <= |Page(cs, after, limit)|
    ensures k <= |cs| && GoesOn(Page(cs, after, limit), k, cs[k..], after, left, limit)
    decreases k
  {
    if k == 0 {
      left := limit;
      assert cs[0..] == cs;
    } else {
      var before := PageFrom(cs, after, limit, k - 1);
      GoesOnStep(Page(cs, after, limit), k - 1, cs[k - 1..], after, before, limit);
      left := before - |Page(cs, after, limit)[k - 1].text|;
      assert cs[k - 1..][1..] == cs[k..];
    }
  }

  /** Reading `c` from cursor `after` on starts at `start`: where a character starts, but none does in between. */
  ghost predicate StartsAt(c: DiskChunk, after: nat, start: nat) {
    && Max(after, c.start) <= start <= c.end && start - c.start <= |c.text| && IsBoundary(c.text, start - c.start)
    && forall x | 0 <= x < start - c.start && c.start + x >= after :: !IsBoundary(c.text, x)
  }

  /** No run of whole characters of `text` longer than `taken` fits what is left of the limit. */
  ghost predicate NoMoreFits(text: Bytes, taken: nat, left: nat) {
    forall e | taken < e <= |text| && IsBoundary(text, e) :: e > left
  }

  /** `p` is what `c` gives from cursor `after` on: as many whole characters as fit. */
  ghost predicate LongestPiece(p: LogChunk, c: DiskChunk, after: nat, left: nat) {
    if c.marker then NoMoreFits(c.text, |p.text|, left)
    else StartsAt(c, after, p.start) && NoMoreFits(c.text[p.start - c.start..], |p.text|, left)
  }

  lemma PieceIsLongest(c: DiskChunk, after: nat, left: nat)
    requires GoodChunk(c) && c.end > after
    ensures LongestPiece(Piece(c, after, Take(c, after, left)), c, after, left)
  {
    SourceStarts(c, after);
  }

  lemma FirstPiece(cs: seq<DiskChunk>, after: nat, left: nat)
    requires |Page(cs, after, left)| > 0
    ensures |cs| > 0 && Page(cs, after, left)[0] == Piece(cs[0], after, Take(cs[0], after, left))
  {
  }

  lemma FirstIsLongest(cs: seq<DiskChunk>, after: nat, left: nat)
    requires |Page(cs, after, left)| > 0 && GoodChunk(cs[0]) && cs[0].end > after
    ensures LongestPiece(Page(cs, after, left)[0], cs[0], after, left)
  {
    FirstPiece(cs, after, left);
    PieceIsLongest(cs[0], after, left);
  }

  /** A piece takes as many whole characters as fit what the pieces before it leave of the limit. */
  lemma PageIsLongest(cs: seq<DiskChunk>, after: nat, limit: nat, k: nat)
    requires Ordered(cs) && (forall j | 0 <= j < |cs| :: cs[j].end > after) && k < |Page(cs, after, limit)|
    ensures var page := Page(cs, after, limit);
            && k < |cs| && TextTotal(page[..k]) <= limit
            && LongestPiece(page[k], cs[k], after, limit - TextTotal(page[..k]))
  {
    var left := PageFrom(cs, after, limit, k);
    assert |Page(cs[k..], after, left)| > 0;
    FirstIsLongest(cs[k..], after, left);
  }

  lemma SourceStarts(c: DiskChunk, after: nat)
    requires GoodChunk(c) && c.end > after
    ensures if c.marker then Source(c, after) == c.text
            else StartsAt(c, after, c.start + Offset(c, after)) && Source(c, after) == c.text[Offset(c, after)..]
  {
  }

  /** A page ends before the last chunk only where the next one's first character does not fit any more, or none
      of its characters starts at `after` or later. */
  lemma PageStopsWhenFull(cs: seq<DiskChunk>, after: nat, limit: nat) returns (start: nat)
    requires Ordered(cs) && (forall j | 0 <= j < |cs| :: cs[j].end > after) && |Page(cs, after, limit)| < |cs|
    ensures var page := Page(cs, after, limit);
            && TextTotal(page) <= limit
            && var c, left := cs[|page|], limit - TextTotal(page);
               if c.marker then NoMoreFits(c.text, 0, left)
               else StartsAt(c, after, start) && NoMoreFits(c.text[start - c.start..], 0, left)
  {
    var page := Page(cs, after, limit);
    var n := |page|;
    var left := PageFrom(cs, after, limit, n);
    assert page[..n] == page && page[n..] == [];
    SourceStarts(cs[n], after);
    start := cs[n].start + Offset(cs[n], after);
  }

  // ---- Exactly when a page leaves nothing behind ----

  /** Byte `i` is on disk, and its character starts at or after `after`: a reader who asks from
      `after` on is to get it. */
  ghost predicate DueIn(c: DiskChunk, after: nat, i: nat) {
    Within(c, i) && i - c.start < |c.text| && c.start + CharStart(c.text, i - c.start) >= after
  }

  ghost predicate Due(cs: seq<DiskChunk>, after: nat, i: nat) {
    exists k :: 0 <= k < |cs| && DueIn(cs[k], after, i)
  }

  /** What is due in a chunk is what reading it from `after` on starts with. */
  lemma DueFrom(c: DiskChunk, after: nat, i: nat)
    requires GoodChunk(c)
    ensures DueIn(c, after, i) <==> !c.marker && c.end > after && c.start + Offset(c, after) <= i < c.end
    ensures DueIn(c, after, i) ==> after <= i
  {
    if Within(c, i) {
      KeptCharacters(c.text, 0, Min(Minus(after, c.start), |c.text|), i - c.start);
    }
  }

  lemma DueStep(c: DiskChunk, tail: seq<DiskChunk>, after: nat, i: nat)
    ensures Due([c] + tail, after, i) <==> DueIn(c, after, i) || Due(tail, after, i)
  {
    var cs := [c] + tail;
    assert cs[0] == c;
    if Due(tail, after, i) {
      var k :| 0 <= k < |tail| && DueIn(tail[k], after, i);
      assert cs[k + 1] == tail[k];
    }
    if Due(cs, after, i) {
      var k :| 0 <= k < |cs| && DueIn(cs[k], after, i);
      assert k > 0 ==> cs[k] == tail[k - 1];
    }
  }

  /** A chunk is cut before a wide character although the limit is not used up, and the next
      chunk's first character still fits: the reader moves on past the cut character. */
  predicate SkipsCharacter(cs: seq<DiskChunk>, after: nat, remaining: nat) {
    if cs == [] || remaining == 0 then false
    else
      var take := Take(cs[0], after, remaining);
      if take == 0 then false
      else if take < |Source(cs[0], after)| && !cs[0].marker then
        |cs| > 1 && remaining > take && Take(cs[1], after, remaining - take) > 0
      else SkipsCharacter(cs[1..], after, remaining - take)
  }

  /** A byte that is due before the end of the page and is not in the page. */
  ghost predicate Misses(cs: seq<DiskChunk>, after: nat, remaining: nat, i: nat) {
    Due(cs, after, i) && i < PageEnd(Page(cs, after, remaining), after) && !Delivered(Page(cs, after, remaining), i)
  }

  ghost predicate Gapless(cs: seq<DiskChunk>, after: nat, remaining: nat) {
    forall i: nat :: !Misses(cs, after, remaining, i)
  }

  lemma DeliveredCons(p: LogChunk, rest: seq<LogChunk>, i: nat)
    ensures Delivered([p] + rest, i) <==> Carries(p, i) || Delivered(rest, i)
  {
    var page := [p] + rest;
    if Delivered(rest, i) {
      var k :| 0 <= k < |rest| && Carries(rest[k], i);
      assert page[k + 1] == rest[k];
    }
    if Carries(p, i) {
      assert page[0] == p;
    }
    if Delivered(page, i) {
      var k :| 0 <= k < |page| && Carries(page[k], i);
      assert k > 0 ==> page[k] == rest[k - 1];
    }
  }

  /** `c` then `tail` is a pending list, and the page gets something out of `c`. */
  ghost predicate Starts(c: DiskChunk, tail: seq<DiskChunk>, after: nat, remaining: nat) {
    && GoodChunk(c) && c.end > after && Ordered(tail)
    && (forall k | 0 <= k < |tail| :: tail[k].start >= c.end && tail[k].end > after)
    && remaining > 0 && Take(c, after, remaining) > 0
  }

  lemma PieceRange(c: DiskChunk, after: nat, take: nat)
    requires GoodChunk(c) && !c.marker && c.end > after && take <= |Source(c, after)|
    ensures var from := c.start + Offset(c, after);
            && Piece(c, after, take).start == from && Piece(c, after, take).end == from + take
            && |Source(c, after)| == c.end - from
            && forall i: nat :: DueIn(c, after, i) <==> from <= i < c.end
  {
    forall i: nat
      ensures DueIn(c, after, i) <==> c.start + Offset(c, after) <= i < c.end
    {
      DueFrom(c, after, i);
    }
  }

  /** What a page takes from the chunks after `c` lies behind `c`. */
  lemma TailPiece(c: DiskChunk, tail: seq<DiskChunk>, after: nat, left: nat, k: nat)
    requires GoodChunk(c) && k < |Page(tail, after, left)|
    requires forall j | 0 <= j < |tail| :: GoodChunk(tail[j]) && tail[j].start >= c.end && tail[j].end > after
    ensures Page(tail, after, left)[k].start >= c.end && Page(tail, after, left)[k].end > c.end
  {
    PagePieces(tail, after, left, k);
    var take := |Page(tail, after, left)[k].text|;
    PieceIsFaithful(tail[k], after, take);
  }

  function Left(c: DiskChunk, after: nat, remaining: nat): nat {
    remaining - Take(c, after, remaining)
  }

  function First(c: DiskChunk, after: nat, remaining: nat): LogChunk {
    Piece(c, after, Take(c, after, remaining))
  }

  lemma TailPage(c: DiskChunk, tail: seq<DiskChunk>, after: nat, remaining: nat)
    requires Starts(c, tail, after, remaining)
    ensures |Page(tail, after, Left(c, after, remaining))| > 0 ==>
              PageEnd(Page(tail, after, Left(c, after, remaining)), after) > c.end
    ensures forall i: nat | Delivered(Page(tail, after, Left(c, after, remaining)), i) :: i >= c.end
  {
    var rest := Page(tail, after, Left(c, after, remaining));
    forall k: nat | k < |rest|
      ensures rest[k].start >= c.end && rest[k].end > c.end
    {
      TailPiece(c, tail, after, Left(c, after, remaining), k);
    }
  }

  lemma PageSplits(c: DiskChunk, tail: seq<DiskChunk>, after: nat, remaining: nat)
    requires Starts(c, tail, after, remaining)
    ensures Page([c] + tail, after, remaining)
         == [First(c, after, remaining)] + Page(tail, after, Left(c, after, remaining))
  {
    assert ([c] + tail)[1..] == tail;
  }

  /** The byte positions of a page and of its chunk list, split at the first chunk. */
  lemma SplitAt(c: DiskChunk, tail: seq<DiskChunk>, after: nat, remaining: nat, i: nat)
    requires Starts(c, tail, after, remaining)
    ensures Due([c] + tail, after, i) <==> DueIn(c, after, i) || Due(tail, after, i)
    ensures Due(tail, after, i) ==> i >= c.end
    ensures Delivered(Page([c] + tail, after, remaining), i) <==>
            (Carries(First(c, after, remaining), i) || Delivered(Page(tail, after, Left(c, after, remaining)), i))
  {
    DueStep(c, tail, after, i);
    PageSplits(c, tail, after, remaining);
    DeliveredCons(First(c, after, remaining), Page(tail, after, Left(c, after, remaining)), i);
  }

  /** A first chunk read to its end is not where a page misses a byte. */
  lemma MissesStep(c: DiskChunk, tail: seq<DiskChunk>, after: nat, remaining: nat, i: nat)
    requires Starts(c, tail, after, remaining) && (c.marker || Take(c, after, remaining) == |Source(c, after)|)
    ensures Misses([c] + tail, after, remaining, i) <==> Misses(tail, after, Left(c, after, remaining), i)
  {
    SplitAt(c, tail, after, remaining, i);
    PageSplits(c, tail, after, remaining);
    TailPage(c, tail, after, remaining);
    if !c.marker {
      PieceRange(c, after, Take(c, after, remaining));
    }
  }

  /** A first chunk that was cut: the byte at the cut is missed exactly when the page goes on. */
  lemma CutMisses(c: DiskChunk, tail: seq<DiskChunk>, after: nat, remaining: nat, i: nat)
    requires Starts(c, tail, after, remaining) && !c.marker && Take(c, after, remaining) < |Source(c, after)|
    ensures |Page(tail, after, Left(c, after, remaining))| == 0 ==> !Misses([c] + tail, after, remaining, i)
    ensures |Page(tail, after, Left(c, after, remaining))| > 0 && i == First(c, after, remaining).end ==>
              Misses([c] + tail, after, remaining, i)
  {
    SplitAt(c, tail, after, remaining, i);
    PageSplits(c, tail, after, remaining);
    TailPage(c, tail, after, remaining);
    PieceRange(c, after, Take(c, after, remaining));
  }

  lemma GaplessStep(c: DiskChunk, tail: seq<DiskChunk>, after: nat, remaining: nat)
    requires Starts(c, tail, after, remaining) && (c.marker || Take(c, after, remaining) == |Source(c, after)|)
    ensures Gapless([c] + tail, after, remaining) <==> Gapless(tail, after, Left(c, after, remaining))
  {
    forall i: nat
      ensures Misses([c] + tail, after, remaining, i) <==> Misses(tail, after, Left(c, after, remaining), i)
    {
      MissesStep(c, tail, after, remaining, i);
    }
  }

  lemma CutStep(c: DiskChunk, tail: seq<DiskChunk>, after: nat, remaining: nat)
    requires Starts(c, tail, after, remaining) && !c.marker && Take(c, after, remaining) < |Source(c, after)|
    ensures Gapless([c] + tail, after, remaining) <==> |Page(tail, after, Left(c, after, remaining))| == 0
  {
    CutMisses(c, tail, after, remaining, First(c, after, remaining).end);
    forall i: nat
      ensures |Page(tail, after, Left(c, after, remaining))| == 0 ==> !Misses([c] + tail, after, remaining, i)
    {
      CutMisses(c, tail, after, remaining, i);
    }
  }

  lemma StartsFrom(cs: seq<DiskChunk>, after: nat, remaining: nat)
    requires Ordered(cs) && forall k | 0 <= k < |cs| :: cs[k].end > after
    requires |cs| > 0 && remaining > 0 && Take(cs[0], after, remaining) > 0
    ensures Starts(cs[0], cs[1..], after, remaining)
    ensures forall k | 0 <= k < |cs[1..]| :: cs[1..][k].end > after
  {
    OrderedTail(cs, after);
  }

  lemma SkipsStep(c: DiskChunk, tail: seq<DiskChunk>, after: nat, remaining: nat)
    requires remaining > 0 && Take(c, after, remaining) > 0
    ensures SkipsCharacter([c] + tail, after, remaining) <==>
            (if c.marker || Take(c, after, remaining) == |Source(c, after)|
             then SkipsCharacter(tail, after, Left(c, after, remaining))
             else |Page(tail, after, Left(c, after, remaining))| > 0)
  {
    assert ([c] + tail)[1..] == tail;
    if |tail| > 0 {
      assert ([c] + tail)[1] == tail[0];
    }
  }

  lemma DueIsAfter(cs: seq<DiskChunk>, after: nat, i: nat)
    requires Ordered(cs) && Due(cs, after, i)
    ensures after <= i
  {
    var k :| 0 <= k < |cs| && DueIn(cs[k], after, i);
    DueFrom(cs[k], after, i);
  }

  lemma EmptyPageGapless(cs: seq<DiskChunk>, after: nat, remaining: nat)
    requires Ordered(cs) && |Page(cs, after, remaining)| == 0
    ensures Gapless(cs, after, remaining)
  {
    forall i: nat | Due(cs, after, i)
      ensures i >= PageEnd(Page(cs, after, remaining), after)
    {
      DueIsAfter(cs, after, i);
    }
  }

  /** A page is gapless if and only if no character was skipped, wherever it starts. */
  lemma {:induction false} GaplessIff(cs: seq<DiskChunk>, after: nat, remaining: nat)
    requires Ordered(cs) && forall k | 0 <= k < |cs| :: cs[k].end > after
    ensures Gapless(cs, after, remaining) <==> !SkipsCharacter(cs, after, remaining)
  {
    if |cs| > 0 && remaining > 0 && Take(cs[0], after, remaining) > 0 {
      var c, tail := cs[0], cs[1..];
      StartsFrom(cs, after, remaining);
      assert cs == [c] + tail;
      SkipsStep(c, tail, after, remaining);
      if c.marker || Take(c, after, remaining) == |Source(c, after)| {
        GaplessStep(c, tail, after, remaining);
        GaplessIff(tail, after, Left(c, after, remaining));
      } else {
        CutStep(c, tail, after, remaining);
      }
    } else {
      EmptyPageGapless(cs, after, remaining);
    }
  }

  /** A page that loses a character: three bytes asked for, "ab" and a three-byte character in
      one chunk, "x" in the next. The page ends behind the character without returning it. */
  lemma SkippingExample(wide: DiskChunk, next: DiskChunk)
    requires wide == DiskChunk(0, 5, Stdout, [97, 98, 0xE2, 0x82, 0xAC], false)
    requires next == DiskChunk(5, 6, Stdout, [120], false)
    ensures Ordered([wide, next]) && SkipsCharacter([wide, next], 0, 3) && !Gapless([wide, next], 0, 3)
  {
    assert Source(wide, 0) == wide.text && Source(next, 0) == next.text;
    assert !IsBoundary(wide.text, 3) && IsBoundary(wide.text, 2) && IsBoundary(next.text, 1);
    assert Take(wide, 0, 3) == 2 && Take(next, 0, 1) == 1;
    assert [wide, next][1] == next;
    GaplessIff([wide, next], 0, 3);
  }

  // ---- Following the end cursor ----

  lemma {:induction false} OneByteNeverSkips(cs: seq<DiskChunk>, after: nat, remaining: nat)
    requires Ordered(cs) && OneByteText(cs) && forall k | 0 <= k < |cs| :: cs[k].end > after
    ensures !SkipsCharacter(cs, after, remaining)
    ensures |cs| > 0 && remaining > 0 ==> Take(cs[0], after, remaining) > 0
  {
    if |cs| > 0 && remaining > 0 {
      var c, take := cs[0], Take(cs[0], after, remaining);
      OrderedTail(cs, after);
      var asked := Min(|Source(c, after)|, remaining);
      assert IsBoundary(c.text, Min(Minus(after, c.start), |c.text|));
      assert IsBoundary(Source(c, after), asked);
      assert take == asked;
      OneByteNeverSkips(cs[1..], after, remaining - take);
    }
  }

  lemma {:induction false} PendingMembers(cs: seq<DiskChunk>, after: nat)
    ensures forall x :: x in Pending(cs, after) <==> x in cs && x.end > after
  {
    if cs != [] {
      PendingMembers(cs[1..], after);
      assert cs == [cs[0]] + cs[1..];
    }
  }

  lemma PendingBehind(cs: seq<DiskChunk>, after: nat, k: nat)
    requires Ordered(cs) && |cs| > 0 && k < |Pending(cs[1..], after)|
    ensures cs[0].end <= Pending(cs[1..], after)[k].start
  {
    OrderedTail(cs, after);
    PendingMembers(cs[1..], after);
    assert Pending(cs[1..], after)[k] in cs[1..];
  }

  lemma {:induction false} PendingInOrder(cs: seq<DiskChunk>, after: nat)
    requires Ordered(cs)
    ensures forall i, j | 0 <= i < j < |Pending(cs, after)| :: Pending(cs, after)[i].end <= Pending(cs, after)[j].start
  {
    if |cs| > 0 {
      OrderedTail(cs, after);
      PendingInOrder(cs[1..], after);
      var q := Pending(cs[1..], after);
      forall k: nat | k < |q|
        ensures cs[0].end <= q[k].start
      {
        PendingBehind(cs, after, k);
      }
    }
  }

  lemma PendingSuffices(cs: seq<DiskChunk>, after: nat)
    requires Ordered(cs)
    ensures var p := Pending(cs, after);
            && Ordered(p) && (forall k | 0 <= k < |p| :: p[k].end > after && p[k] in cs)
            && (OneByteText(cs) ==> OneByteText(p))
    ensures forall i: nat :: Due(cs, after, i) <==> Due(Pending(cs, after), after, i)
  {
    PendingInOrder(cs, after);
    PendingMembers(cs, after);
    var p := Pending(cs, after);
    forall k | 0 <= k < |p|
      ensures p[k] in cs && p[k].end > after
    {
      assert p[k] in p;
    }
    forall i: nat
      ensures Due(cs, after, i) <==> Due(p, after, i)
    {
      if Due(cs, after, i) {
        var k :| 0 <= k < |cs| && DueIn(cs[k], after, i);
        DueFrom(cs[k], after, i);
        assert cs[k] in p;
        var j :| 0 <= j < |p| && p[j] == cs[k];
      }
      if Due(p, after, i) {
        var j :| 0 <= j < |p| && DueIn(p[j], after, i);
        var k :| 0 <= k < |cs| && cs[k] == p[j];
      }
    }
  }

  function End(cs: seq<DiskChunk>): nat {
    if cs == [] then 0 else cs[|cs| - 1].end
  }

  lemma EndsByTheEnd(cs: seq<DiskChunk>, c: DiskChunk)
    requires Ordered(cs) && c in cs
    ensures GoodChunk(c) && c.end <= End(cs)
  {
    var m :| 0 <= m < |cs| && cs[m] == c;
    assert GoodChunk(cs[|cs| - 1]);
  }

  lemma PageAdvances(cs: seq<DiskChunk>, after: nat, limit: nat)
    requires Ordered(cs) && |Page(Pending(cs, after), after, limit)| > 0
    ensures after < PageEnd(Page(Pending(cs, after), after, limit), after) <= End(cs)
  {
    var p := Pending(cs, after);
    var page := Page(p, after, limit);
    var k := |page| - 1;
    PagePieces(p, after, limit, k);
    PendingMembers(cs, after);
    assert p[k] in p;
    EndsByTheEnd(cs, p[k]);
    PieceIsFaithful(p[k], after, |page[k].text|);
  }

  /** All chunks a reader gets by asking again from the last end cursor until a page is empty. */
  ghost function Follow(cs: seq<DiskChunk>, after: nat, limit: nat): seq<LogChunk>
    requires Ordered(cs)
    decreases End(cs) - after
  {
    var page := Page(Pending(cs, after), after, limit);
    if |page| == 0 then []
    else
      PageAdvances(cs, after, limit);
      page + Follow(cs, PageEnd(page, after), limit)
  }

  lemma DeliveredConcat(a: seq<LogChunk>, b: seq<LogChunk>, i: nat)
    requires Delivered(a, i) || Delivered(b, i)
    ensures Delivered(a + b, i)
  {
    if Delivered(a, i) {
      var k :| 0 <= k < |a| && Carries(a[k], i);
      assert (a + b)[k] == a[k];
    } else {
      var k :| 0 <= k < |b| && Carries(b[k], i);
      assert (a + b)[|a| + k] == b[k];
    }
  }

  /** `at` is where a page can end: inside or at the end of a chunk, for a marker only at its end. */
  ghost predicate PageEndsAt(cs: seq<DiskChunk>, k: nat, at: nat) {
    k < |cs| && cs[k].start < at <= cs[k].end && (cs[k].marker ==> at == cs[k].end)
  }

  lemma PagesMeet(cs: seq<DiskChunk>, after: nat, limit: nat, k: nat)
    requires Ordered(cs) && PageEndsAt(cs, k, after)
    ensures forall j | 0 <= j < |Page(Pending(cs, after), after, limit)| ::
              after <= Page(Pending(cs, after), after, limit)[j].start
  {
    PendingSuffices(cs, after);
    var p := Pending(cs, after);
    var page := Page(p, after, limit);
    PageIsFaithful(p, after, limit);
    forall j | 0 <= j < |page|
      ensures after <= page[j].start
    {
      assert PieceOf(page[j], p[j], after) && p[j] in cs;
      var m :| 0 <= m < |cs| && cs[m] == p[j];
      assert m < k ==> cs[m].end <= cs[k].start;
      assert k < m ==> cs[k].end <= cs[m].start;
    }
  }

  lemma PageEndsInside(cs: seq<DiskChunk>, after: nat, limit: nat) returns (k: nat)
    requires Ordered(cs) && |Page(Pending(cs, after), after, limit)| > 0
    ensures PageEndsAt(cs, k, PageEnd(Page(Pending(cs, after), after, limit), after))
  {
    PendingSuffices(cs, after);
    var p := Pending(cs, after);
    var page := Page(p, after, limit);
    PageIsFaithful(p, after, limit);
    var j := |page| - 1;
    assert PieceOf(page[j], p[j], after) && p[j] in cs;
    k :| 0 <= k < |cs| && cs[k] == p[j];
  }

  ghost predicate InOrder(page: seq<LogChunk>) {
    forall i, j | 0 <= i < j < |page| :: page[i].end <= page[j].start
  }

  ghost predicate AllFrom(page: seq<LogChunk>, from: nat) {
    forall j | 0 <= j < |page| :: from <= page[j].start
  }

  lemma OrderConcat(a: seq<LogChunk>, b: seq<LogChunk>, after: nat)
    requires InOrder(a) && InOrder(b) && AllFrom(b, PageEnd(a, after))
    requires forall i | 0 <= i < |a| :: a[i].start <= a[i].end
    ensures InOrder(a + b)
  {
    forall i, j | 0 <= i < j < |a + b|
      ensures (a + b)[i].end <= (a + b)[j].start
    {
      if j >= |a| && i < |a| {
        assert a[i].end <= PageEnd(a, after) <= b[j - |a|].start;
      }
    }
  }

  lemma PendingPageInOrder(cs: seq<DiskChunk>, after: nat, limit: nat)
    requires Ordered(cs)
    ensures InOrder(Page(Pending(cs, after), after, limit))
    ensures forall i | 0 <= i < |Page(Pending(cs, after), after, limit)| ::
              Page(Pending(cs, after), after, limit)[i].start <= Page(Pending(cs, after), after, limit)[i].end
  {
    PendingSuffices(cs, after);
    var p := Pending(cs, after);
    PageIsFaithful(p, after, limit);
    var page := Page(p, after, limit);
    forall i | 0 <= i < |page|
      ensures page[i].start <= page[i].end
    {
      assert PieceOf(page[i], p[i], after);
    }
  }

  /** From a cursor where a page can end, everything that follows starts at or after it. */
  lemma {:induction false} FollowFrom(cs: seq<DiskChunk>, after: nat, limit: nat, k: nat)
    requires Ordered(cs) && PageEndsAt(cs, k, after)
    ensures AllFrom(Follow(cs, after, limit), after)
    decreases End(cs) - after
  {
    var page := Page(Pending(cs, after), after, limit);
    if |page| > 0 {
      PageAdvances(cs, after, limit);
      PagesMeet(cs, after, limit, k);
      var m := PageEndsInside(cs, after, limit);
      FollowFrom(cs, PageEnd(page, after), limit, m);
      assert Follow(cs, after, limit) == page + Follow(cs, PageEnd(page, after), limit);
    }
  }

  /** Nothing is delivered twice or out of order, across all pages and for any text. */
  lemma {:induction false} FollowInOrder(cs: seq<DiskChunk>, after: nat, limit: nat)
    requires Ordered(cs)
    ensures InOrder(Follow(cs, after, limit))
    decreases End(cs) - after
  {
    var page := Page(Pending(cs, after), after, limit);
    if |page| > 0 {
      PageAdvances(cs, after, limit);
      PendingPageInOrder(cs, after, limit);
      var end := PageEnd(page, after);
      var k := PageEndsInside(cs, after, limit);
      FollowInOrder(cs, end, limit);
      FollowFrom(cs, end, limit, k);
      OrderConcat(page, Follow(cs, end, limit), after);
    }
  }

  // ---- Exactly when following the end cursor delivers everything ----

  /** Nothing fits although payload is left: the limit is zero, the next character is wider than the
      limit, or the reader stands inside the last character of the next chunk. */
  predicate Stalls(pending: seq<DiskChunk>, after: nat, limit: nat) {
    && (limit == 0 || (pending != [] && Take(pending[0], after, limit) == 0))
    && exists k :: 0 <= k < |pending| && !pending[k].marker && Source(pending[k], after) != []
  }

  /** From `after` on no page skips a character, and the page that ends the reading does not stall. */
  ghost predicate Smooth(cs: seq<DiskChunk>, after: nat, limit: nat)
    requires Ordered(cs)
    decreases End(cs) - after
  {
    var pending := Pending(cs, after);
    var page := Page(pending, after, limit);
    if |page| == 0 then !Stalls(pending, after, limit)
    else
      PageAdvances(cs, after, limit);
      !SkipsCharacter(pending, after, limit) && Smooth(cs, PageEnd(page, after), limit)
  }

  lemma SourceIsDue(c: DiskChunk, after: nat)
    requires GoodChunk(c) && !c.marker && c.end > after
    ensures Source(c, after) != [] <==> exists i: nat :: DueIn(c, after, i)
  {
    PieceRange(c, after, 0);
    if Source(c, after) != [] {
      assert DueIn(c, after, c.start + Offset(c, after));
    }
  }

  lemma StallsIff(pending: seq<DiskChunk>, after: nat, limit: nat)
    requires Ordered(pending) && (forall k | 0 <= k < |pending| :: pending[k].end > after)
    requires |Page(pending, after, limit)| == 0
    ensures Stalls(pending, after, limit) <==> exists i: nat :: Due(pending, after, i)
  {
    if Stalls(pending, after, limit) {
      var k :| 0 <= k < |pending| && !pending[k].marker && Source(pending[k], after) != [];
      SourceIsDue(pending[k], after);
      var i: nat :| DueIn(pending[k], after, i);
      assert Due(pending, after, i);
    }
    if i: nat :| Due(pending, after, i) {
      var k :| 0 <= k < |pending| && DueIn(pending[k], after, i);
      SourceIsDue(pending[k], after);
    }
  }

  lemma WithinIsDue(c: DiskChunk, at: nat, i: nat)
    requires GoodChunk(c) && Within(c, i) && at <= i && (at <= c.start || IsBoundary(c.text, at - c.start))
    ensures DueIn(c, at, i)
  {
    DueFrom(c, at, i);
  }

  lemma EndsClean(c: DiskChunk, last: DiskChunk, p: LogChunk, after: nat, i: nat)
    requires GoodChunk(c) && Within(c, i) && i >= p.end && PieceOf(p, last, after)
    requires c == last || last.end <= c.start
    ensures DueIn(c, p.end, i)
  {
    WithinIsDue(c, p.end, i);
  }

  lemma NotBefore(cs: seq<DiskChunk>, m: nat, k: nat, i: nat)
    requires Ordered(cs) && m < |cs| && k < |cs| && Within(cs[m], i) && i >= cs[k].start
    ensures m >= k && (m > k ==> cs[k].end <= cs[m].start)
  {
  }

  /** What lies behind the end of a page was due before it and is due behind it. */
  lemma StillDue(cs: seq<DiskChunk>, after: nat, limit: nat, m: nat, i: nat)
    requires Ordered(cs) && |Page(Pending(cs, after), after, limit)| > 0 && m < |cs|
    requires Within(cs[m], i) && i >= PageEnd(Page(Pending(cs, after), after, limit), after)
    ensures DueIn(cs[m], after, i) && DueIn(cs[m], PageEnd(Page(Pending(cs, after), after, limit), after), i)
  {
    PendingSuffices(cs, after);
    var p := Pending(cs, after);
    var page := Page(p, after, limit);
    var end, j := PageEnd(page, after), |page| - 1;
    PageIsFaithful(p, after, limit);
    PageAdvances(cs, after, limit);
    assert PieceOf(page[j], p[j], after) && p[j] in cs;
    var k :| 0 <= k < |cs| && cs[k] == p[j];
    NotBefore(cs, m, k, i);
    if m > k {
      WithinIsDue(cs[m], after, i);
    } else {
      PagePieces(p, after, limit, j);
      PieceRange(cs[m], after, |page[j].text|);
    }
    EndsClean(cs[m], cs[k], page[j], after, i);
  }

  lemma DueBehindPage(cs: seq<DiskChunk>, after: nat, limit: nat, i: nat)
    requires Ordered(cs) && |Page(Pending(cs, after), after, limit)| > 0
    requires i >= PageEnd(Page(Pending(cs, after), after, limit), after)
    ensures Due(cs, after, i) <==> Due(cs, PageEnd(Page(Pending(cs, after), after, limit), after), i)
  {
    var end := PageEnd(Page(Pending(cs, after), after, limit), after);
    if Due(cs, after, i) {
      var m :| 0 <= m < |cs| && DueIn(cs[m], after, i);
      StillDue(cs, after, limit, m, i);
    }
    if Due(cs, end, i) {
      var m :| 0 <= m < |cs| && DueIn(cs[m], end, i);
      StillDue(cs, after, limit, m, i);
    }
  }

  /** What is delivered before the end of a page is in the page, and what is delivered behind it is not. */
  lemma DeliveredWhere(cs: seq<DiskChunk>, after: nat, limit: nat, i: nat)
    requires Ordered(cs) && |Page(Pending(cs, after), after, limit)| > 0
    ensures var page := Page(Pending(cs, after), after, limit);
            var end := PageEnd(page, after);
            Delivered(Follow(cs, after, limit), i) <==>
            (if i < end then Delivered(page, i) else after < end <= End(cs) && Delivered(Follow(cs, end, limit), i))
  {
    var page := Page(Pending(cs, after), after, limit);
    var end := PageEnd(page, after);
    PageAdvances(cs, after, limit);
    var rest := Follow(cs, end, limit);
    assert Follow(cs, after, limit) == page + rest;
    var k := PageEndsInside(cs, after, limit);
    FollowFrom(cs, end, limit, k);
    PendingPageInOrder(cs, after, limit);
    if Delivered(page, i) || Delivered(rest, i) {
      DeliveredConcat(page, rest, i);
    }
    if Delivered(page, i) {
      var j :| 0 <= j < |page| && Carries(page[j], i);
      assert j < |page| - 1 ==> page[j].end <= page[|page| - 1].start;
    }
    if Delivered(page + rest, i) {
      var j :| 0 <= j < |page + rest| && Carries((page + rest)[j], i);
      assert if j < |page| then Carries(page[j], i) else Carries(rest[j - |page|], i);
    }
  }

  /** A reader who starts anywhere, asks for any limit and follows the end cursor. */
  ghost predicate ReadsAll(cs: seq<DiskChunk>, after: nat, limit: nat)
    requires Ordered(cs)
  {
    forall i: nat | Due(cs, after, i) :: Delivered(Follow(cs, after, limit), i)
  }

  lemma EmptyPageReads(cs: seq<DiskChunk>, after: nat, limit: nat)
    requires Ordered(cs) && |Page(Pending(cs, after), after, limit)| == 0
    ensures ReadsAll(cs, after, limit) <==> Smooth(cs, after, limit)
  {
    PendingSuffices(cs, after);
    StallsIff(Pending(cs, after), after, limit);
    assert forall i: nat :: !Delivered(Follow(cs, after, limit), i);
    if i: nat :| Due(Pending(cs, after), after, i) {
      assert Due(cs, after, i);
    }
  }

  lemma PageReads(cs: seq<DiskChunk>, after: nat, limit: nat)
    requires Ordered(cs) && |Page(Pending(cs, after), after, limit)| > 0
    ensures var end := PageEnd(Page(Pending(cs, after), after, limit), after);
            ReadsAll(cs, after, limit) <==>
            !SkipsCharacter(Pending(cs, after), after, limit) && ReadsAll(cs, end, limit)
  {
    PendingSuffices(cs, after);
    var p := Pending(cs, after);
    var end := PageEnd(Page(p, after, limit), after);
    GaplessIff(p, after, limit);
    PageAdvances(cs, after, limit);
    forall i: nat
      ensures Due(cs, end, i) <==> Due(cs, after, i) && i >= end
      ensures Misses(p, after, limit, i) <==> Due(cs, after, i) && i < end && !Delivered(Follow(cs, after, limit), i)
      ensures i >= end ==> (Delivered(Follow(cs, after, limit), i) <==> Delivered(Follow(cs, end, limit), i))
    {
      DeliveredWhere(cs, after, limit, i);
      if Due(cs, end, i) {
        DueIsAfter(cs, end, i);
      }
      if i >= end {
        DueBehindPage(cs, after, limit, i);
      }
      assert Due(cs, after, i) <==> Due(p, after, i);
    }
  }

  /** For any text, any limit and any start: following the end cursor delivers every byte whose
      character starts at or after the start, if and only if no page skips and none stalls. */
  lemma {:induction false} FollowReadsEverything(cs: seq<DiskChunk>, after: nat, limit: nat)
    requires Ordered(cs)
    ensures ReadsAll(cs, after, limit) <==> Smooth(cs, after, limit)
    decreases End(cs) - after
  {
    if |Page(Pending(cs, after), after, limit)| == 0 {
      EmptyPageReads(cs, after, limit);
    } else {
      PageAdvances(cs, after, limit);
      PageReads(cs, after, limit);
      FollowReadsEverything(cs, PageEnd(Page(Pending(cs, after), after, limit), after), limit);
    }
  }

  /** With one-byte characters every reading is smooth. */
  lemma {:induction false} OneByteIsSmooth(cs: seq<DiskChunk>, after: nat, limit: nat)
    requires Ordered(cs) && OneByteText(cs) && limit >= 1
    ensures Smooth(cs, after, limit)
    decreases End(cs) - after
  {
    PendingSuffices(cs, after);
    var p := Pending(cs, after);
    OneByteNeverSkips(p, after, limit);
    if |Page(p, after, limit)| > 0 {
      PageAdvances(cs, after, limit);
      OneByteIsSmooth(cs, PageEnd(Page(p, after, limit), after), limit);
    }
  }

  lemma FourBytesFit(c: DiskChunk, after: nat, limit: nat)
    requires GoodChunk(c) && c.end > after && IsText(c.text) && CleanAt(c, after) && limit >= 4
    ensures Take(c, after, limit) > 0
  {
    var o, source := Offset(c, after), Source(c, after);
    assert IsBoundary(c.text, o) && o < |c.text|;
    SliceBoundaries(c.text, o, |c.text|);
    assert c.text[o..|c.text|] == source;
    RoundingIsNear(source, Min(|source|, limit));
  }

  /** With a limit of at least four bytes no page stalls that starts between two characters. */
  lemma FourBytesNeverStall(pending: seq<DiskChunk>, after: nat, limit: nat)
    requires Ordered(pending) && OnBoundary(pending, after) && limit >= 4
    requires forall k | 0 <= k < |pending| :: pending[k].end > after && IsText(pending[k].text)
    ensures |Page(pending, after, limit)| > 0 <==> pending != []
    ensures !Stalls(pending, after, limit)
  {
    if pending != [] {
      assert CleanAt(pending[0], after);
      FourBytesFit(pending[0], after, limit);
    }
  }

  lemma PendingOnBoundary(cs: seq<DiskChunk>, after: nat)
    requires Ordered(cs) && OnBoundary(cs, after)
    ensures OnBoundary(Pending(cs, after), after)
  {
    PendingSuffices(cs, after);
    var p := Pending(cs, after);
    forall k | 0 <= k < |p|
      ensures CleanAt(p[k], after)
    {
      var m :| 0 <= m < |cs| && cs[m] == p[k];
    }
  }

  /** A page never ends inside a character. */
  lemma EndsOnBoundary(cs: seq<DiskChunk>, after: nat, limit: nat)
    requires Ordered(cs) && |Page(Pending(cs, after), after, limit)| > 0
    ensures OnBoundary(cs, PageEnd(Page(Pending(cs, after), after, limit), after))
  {
    PendingSuffices(cs, after);
    var p := Pending(cs, after);
    var page := Page(p, after, limit);
    var j := |page| - 1;
    PageIsFaithful(p, after, limit);
    assert PieceOf(page[j], p[j], after) && p[j] in cs;
    var k :| 0 <= k < |cs| && cs[k] == p[j];
    forall m: nat | m < |cs|
      ensures CleanAt(cs[m], page[j].end)
    {
      CleanBeside(cs, m, k, page[j], after);
    }
  }

  lemma CleanBeside(cs: seq<DiskChunk>, m: nat, k: nat, p: LogChunk, after: nat)
    requires Ordered(cs) && m < |cs| && k < |cs| && PieceOf(p, cs[k], after)
    ensures CleanAt(cs[m], p.end)
  {
    if m > k {
      assert cs[k].end <= cs[m].start;
    }
  }

  /** No page of a reading from `after` on skips a character. */
  ghost predicate NeverSkips(cs: seq<DiskChunk>, after: nat, limit: nat)
    requires Ordered(cs)
    decreases End(cs) - after
  {
    var pending := Pending(cs, after);
    var page := Page(pending, after, limit);
    |page| > 0 ==>
      (PageAdvances(cs, after, limit);
       !SkipsCharacter(pending, after, limit) && NeverSkips(cs, PageEnd(page, after), limit))
  }

  /** With a limit of at least four bytes, a reader who starts between two characters gets everything
      if and only if no page skips. */
  lemma {:induction false} FourBytesSmooth(cs: seq<DiskChunk>, after: nat, limit: nat)
    requires Ordered(cs) && OnBoundary(cs, after) && limit >= 4 && forall k | 0 <= k < |cs| :: IsText(cs[k].text)
    ensures Smooth(cs, after, limit) <==> NeverSkips(cs, after, limit)
    decreases End(cs) - after
  {
    PendingSuffices(cs, after);
    PendingOnBoundary(cs, after);
    var p := Pending(cs, after);
    forall k | 0 <= k < |p|
      ensures IsText(p[k].text)
    {
      var m :| 0 <= m < |cs| && cs[m] == p[k];
    }
    FourBytesNeverStall(p, after, limit);
    if |Page(p, after, limit)| > 0 {
      PageAdvances(cs, after, limit);
      EndsOnBoundary(cs, after, limit);
      FourBytesSmooth(cs, PageEnd(Page(p, after, limit), after), limit);
    }
  }

  lemma StallEndsReading(cs: seq<DiskChunk>, after: nat, limit: nat)
    requires Ordered(cs) && Stalls(Pending(cs, after), after, limit)
    ensures Follow(cs, after, limit) == [] && !ReadsAll(cs, after, limit)
  {
    assert |Page(Pending(cs, after), after, limit)| == 0;
    EmptyPageReads(cs, after, limit);
  }

  /** A page that stalls on a wide character: one byte asked for, one three-byte character there. */
  lemma StallExample(wide: DiskChunk)
    requires wide == DiskChunk(0, 3, Stdout, [0xE2, 0x82, 0xAC], false)
    ensures Ordered([wide]) && Follow([wide], 0, 1) == [] && !ReadsAll([wide], 0, 1)
  {
    assert Source(wide, 0) == wide.text && !IsBoundary(wide.text, 1);
    assert Take(wide, 0, 1) == 0;
    assert Pending([wide], 0) == [wide] && [wide][0] == wide;
    assert Stalls(Pending([wide], 0), 0, 1);
    StallEndsReading([wide], 0, 1);
  }

  /** A reader inside the last character of a chunk never gets the next one, whatever the limit. */
  lemma InsideExample(wide: DiskChunk, next: DiskChunk, limit: nat)
    requires wide == DiskChunk(0, 3, Stdout, [0xE2, 0x82, 0xAC], false)
    requires next == DiskChunk(3, 4, Stdout, [120], false)
    ensures Ordered([wide, next]) && Follow([wide, next], 1, limit) == [] && !ReadsAll([wide, next], 1, limit)
  {
    var cs := [wide, next];
    assert !IsBoundary(wide.text, 1) && !IsBoundary(wide.text, 2);
    assert Source(wide, 1) == [] && Source(next, 1) == next.text;
    PendingBoth(wide, next, 1);
    assert cs[0] == wide && cs[1] == next && Take(cs[0], 1, limit) == 0 && Source(cs[1], 1) != [];
    assert Stalls(cs, 1, limit);
    StallEndsReading(cs, 1, limit);
  }

  lemma PendingBoth(a: DiskChunk, b: DiskChunk, after: nat)
    requires a.end > after && b.end > after
    ensures Pending([a, b], after) == [a, b]
  {
    assert [a, b][1..] == [b];
    assert Pending([b], after) == [b] + Pending([], after);
  }
}
