/** What later appends make of the files that a failed one left: which are harmless, which overlap, and
    what holds over whole runs of completed and failed appends. */
module LogAftermath {
  import opened Common
  import opened Text
  import opened LogNames
  import opened LogDirectory
  import opened LogPaging
  import opened LogStore
  import opened LogEdits
  import opened LogLeftovers
  import opened LogCutOff

  // ---- The next append ----

  /** The files that writing `parts` from `at` on puts in place. */
  function News(channel: Channel, parts: seq<Bytes>, at: nat): Directory {
    Written(map[], channel, parts, at)
  }

  lemma {:induction false} WrittenIsMerge(d: Directory, channel: Channel, parts: seq<Bytes>, at: nat)
    ensures Written(d, channel, parts, at) == d + News(channel, parts, at)
    decreases |parts|
  {
    if |parts| > 0 {
      var end := at + |parts[0]|;
      var name, c := ChunkFile(at, end, channel), DiskChunk(at, end, channel, parts[0], false);
      WrittenIsMerge(d[name := c], channel, parts[1..], end);
      WrittenIsMerge(map[name := c], channel, parts[1..], end);
      var rest := News(channel, parts[1..], end);
      assert d[name := c] + rest == d + (map[name := c] + rest);
    }
  }

  lemma {:induction false} NewsAre(channel: Channel, parts: seq<Bytes>, at: nat)
    requires forall p | p in parts :: |p| > 0
    ensures forall n | n in News(channel, parts, at) ::
              var c := News(channel, parts, at)[n]; n == NameOf(c) && !c.marker && at <= c.start < c.end
    decreases |parts|
  {
    if |parts| > 0 {
      assert parts[0] in parts && forall p | p in parts[1..] :: p in parts;
      var end := at + |parts[0]|;
      var name, c := ChunkFile(at, end, channel), DiskChunk(at, end, channel, parts[0], false);
      NewsAre(channel, parts[1..], end);
      WrittenIsMerge(map[name := c], channel, parts[1..], end);
      assert forall n | n in News(channel, parts, at) :: n in News(channel, parts[1..], end) || n == name;
    }
  }

  /** The files that end by `at`. */
  function Base(d: Directory, at: nat): Directory {
    map n | n in d && d[n].end <= at :: d[n]
  }

  lemma BaseIsWellFormed(d: Directory, h: Bytes, ch: seq<Channel>, t: Bytes, tc: seq<Channel>)
    requires WellFormed(d, h + t, ch + tc) && |h| == |ch| && IsText(t)
    ensures WellFormed(Base(d, |h|), h, ch)
  {
    AppendBoundaries(h, t);
    forall n | n in Base(d, |h|)
      ensures EntryOk(n, d[n], h, ch)
    {
      var c := d[n];
      assert EntryOk(n, c, h + t, ch + tc);
      assert (h + t)[c.start..c.end] == h[c.start..c.end];
      assert forall i | c.start <= i < c.end :: (ch + tc)[i] == ch[i];
    }
  }

  /** Every file that ends beyond `at` has a name that writing `text` from there puts in place. */
  ghost predicate Overwrites(d: Directory, at: nat, channel: Channel, text: Bytes)
    requires IsText(text)
  {
    forall n | n in d && d[n].end > at :: n in News(channel, Split(text, CHUNK_BYTES), at)
  }

  lemma OverwrittenIsBase(d: Directory, at: nat, channel: Channel, text: Bytes)
    requires IsText(text) && Overwrites(d, at, channel, text)
    ensures Written(d, channel, Split(text, CHUNK_BYTES), at) == Written(Base(d, at), channel, Split(text, CHUNK_BYTES), at)
  {
    var parts := Split(text, CHUNK_BYTES);
    WrittenIsMerge(d, channel, parts, at);
    WrittenIsMerge(Base(d, at), channel, parts, at);
  }

  /** A file that is not overwritten overlaps a new one or ends beyond the text. */
  lemma LeftoverOverlaps(d: Directory, n: FileName, h: Bytes, ch: seq<Channel>, channel: Channel, text: Bytes)
    requires WellFormed(Base(d, |h|), h, ch) && IsText(h) && IsText(text) && |h| + |text| < U64_BOUND
    requires n in d && d[n].end > |h| && n !in News(channel, Split(text, CHUNK_BYTES), |h|)
    ensures !WellFormed(Written(d, channel, Split(text, CHUNK_BYTES), |h|), h + text, ch + seq(|text|, _ => channel))
  {
    var parts, h', ch' := Split(text, CHUNK_BYTES), h + text, ch + seq(|text|, _ => channel);
    var e := Written(d, channel, parts, |h|);
    WrittenIsMerge(d, channel, parts, |h|);
    assert n in e && e[n] == d[n];
    if d[n].start >= d[n].end || d[n].end > |h'| {
      assert !EntryOk(n, e[n], h', ch');
    } else {
      var m := NewFileAt(Base(d, |h|), h, ch, channel, text, Max(d[n].start, |h|));
      assert m in e && m != n && !Apart(e[m], e[n]);
    }
  }

  /** Every position of the new text is in a new file. */
  lemma NewFileAt(d: Directory, h: Bytes, ch: seq<Channel>, channel: Channel, text: Bytes, x: nat) returns (m: FileName)
    requires WellFormed(d, h, ch) && IsText(h) && IsText(text) && |h| <= x < |h| + |text| < U64_BOUND
    ensures var news := News(channel, Split(text, CHUNK_BYTES), |h|); m in news && news[m].start <= x < news[m].end
  {
    var parts := Split(text, CHUNK_BYTES);
    WrittenFromEnd(d, h, ch, channel, text);
    var full := Written(d, channel, parts, |h|);
    WrittenIsMerge(d, channel, parts, |h|);
    assert Covers(full, x);
    m :| HoldsAt(full, m, x);
    if m !in News(channel, parts, |h|) {
      assert HoldsAt(d, m, x);
      CoversInside(d, h, ch, x);
      assert false;
    }
  }

  /** The files that end by the next cursor are as they should be, whatever lies beyond. */
  ghost predicate SoundBase(s: Stream) {
    IsText(s.h) && WellFormed(Base(s.d, |s.h|), s.h, s.ch)
  }

  /** When the next append has written its text, and before it cuts, no files overlap if and only if it
      has overwritten every file that ends beyond the cursor it starts at. */
  lemma NextAppendIff(s: Stream, channel: Channel, text: Bytes)
    requires SoundBase(s) && IsText(text) && |s.h| + |text| < U64_BOUND
    ensures Ready(s, channel, text) <==> Overwrites(s.d, |s.h|, channel, text)
  {
    if Overwrites(s.d, |s.h|, channel, text) {
      OverwrittenIsBase(s.d, |s.h|, channel, text);
      WrittenFromEnd(Base(s.d, |s.h|), s.h, s.ch, channel, text);
    } else {
      var n :| n in s.d && s.d[n].end > |s.h| && n !in News(channel, Split(text, CHUNK_BYTES), |s.h|);
      LeftoverOverlaps(s.d, n, s.h, s.ch, channel, text);
    }
  }

  // ---- After a cut-off while writing ----

  lemma WrittenBase(d: Directory, h: Bytes, ch: seq<Channel>, channel: Channel, text: Bytes, k: nat)
    requires WellFormed(d, h, ch) && IsText(text) && k <= |Split(text, CHUNK_BYTES)|
    ensures Base(Written(d, channel, Split(text, CHUNK_BYTES)[..k], |h|), |h|) == d
  {
    var parts := Split(text, CHUNK_BYTES)[..k];
    SplitLosesNothing(text, CHUNK_BYTES);
    WrittenIsMerge(d, channel, parts, |h|);
    NewsAre(channel, parts, |h|);
    var e, news := Written(d, channel, parts, |h|), News(channel, parts, |h|);
    forall n | n in d
      ensures d[n].end <= |h| && n !in news
    {
      assert EntryOk(n, d[n], h, ch);
    }
  }

  /** Cut off while writing: the next append, of whatever text, either overwrites all that was left
      and then has exactly the outcome it would have had without the failed one, or files overlap when
      it has written its text. */
  lemma AsIfNeverTried(s: Stream, r: LogRetention, channel: Channel, inputLength: nat, text: Bytes, k: nat,
                       nextChannel: Channel, nextLength: nat, next: Bytes)
    requires r.Valid() && SoundStream(s, r) && Ready(s, channel, text) && k <= |Split(text, CHUNK_BYTES)|
    requires Ready(s, nextChannel, next) && k <= |AppendEdits(s, r, channel, inputLength, text)|
    ensures var cutOff := s.(d := FilesAfter(s, r, channel, inputLength, text, k));
            && (Ready(cutOff, nextChannel, next) <==> Overwrites(cutOff.d, |s.h|, nextChannel, next))
            && (Ready(cutOff, nextChannel, next) ==>
                  AfterAppend(cutOff, r, nextChannel, nextLength, next) == AfterAppend(s, r, nextChannel, nextLength, next))
  {
    var parts, cutOff := Split(text, CHUNK_BYTES), s.(d := FilesAfter(s, r, channel, inputLength, text, k));
    CutOffWriting(s, r, channel, inputLength, text, k);
    BaseIsWellFormed(cutOff.d, s.h, s.ch, text, seq(|text|, _ => channel));
    NextAppendIff(cutOff, nextChannel, next);
    if Overwrites(cutOff.d, |s.h|, nextChannel, next) {
      FilesWhileWriting(s, r, channel, inputLength, text, k);
      FirstPartEdits(channel, parts, k, |s.h|);
      PartsWrite(s.d, channel, parts[..k], |s.h|);
      WrittenBase(s.d, s.h, s.ch, channel, text, k);
      OverwrittenIsBase(cutOff.d, |s.h|, nextChannel, next);
      SameWriting(cutOff, s, r, nextChannel, nextLength, next);
    }
  }

  lemma SameWriting(a: Stream, b: Stream, r: LogRetention, channel: Channel, inputLength: nat, text: Bytes)
    requires r.Valid() && Ready(a, channel, text) && Ready(b, channel, text)
    requires a.h == b.h && a.ch == b.ch && a.row == b.row
    requires Written(a.d, channel, Split(text, CHUNK_BYTES), |a.h|) == Written(b.d, channel, Split(text, CHUNK_BYTES), |b.h|)
    ensures AfterAppend(a, r, channel, inputLength, text) == AfterAppend(b, r, channel, inputLength, text)
  {
  }

  lemma {:induction false} FirstNews(channel: Channel, parts: seq<Bytes>, k: nat, at: nat)
    requires k <= |parts|
    ensures News(channel, parts[..k], at).Keys <= News(channel, parts, at).Keys
    decreases |parts|
  {
    if k > 0 {
      assert parts[..k][0] == parts[0] && parts[..k][1..] == parts[1..][..k - 1];
      var end := at + |parts[0]|;
      FirstNews(channel, parts[1..], k - 1, end);
      var name, c := ChunkFile(at, end, channel), DiskChunk(at, end, channel, parts[0], false);
      WrittenIsMerge(map[name := c], channel, parts[1..], end);
      WrittenIsMerge(map[name := c], channel, parts[1..][..k - 1], end);
    }
  }

  /** Trying the same append again after it was cut off while writing completes it. */
  lemma RetryCompletes(s: Stream, r: LogRetention, channel: Channel, inputLength: nat, text: Bytes, k: nat)
    requires r.Valid() && SoundStream(s, r) && Ready(s, channel, text) && k <= |Split(text, CHUNK_BYTES)|
    requires k <= |AppendEdits(s, r, channel, inputLength, text)|
    ensures var cutOff := s.(d := FilesAfter(s, r, channel, inputLength, text, k));
            && Ready(cutOff, channel, text)
            && AfterAppend(cutOff, r, channel, inputLength, text) == AfterAppend(s, r, channel, inputLength, text)
  {
    var parts, d := Split(text, CHUNK_BYTES), FilesAfter(s, r, channel, inputLength, text, k);
    FilesWhileWriting(s, r, channel, inputLength, text, k);
    FirstPartEdits(channel, parts, k, |s.h|);
    PartsWrite(s.d, channel, parts[..k], |s.h|);
    WrittenIsMerge(s.d, channel, parts[..k], |s.h|);
    FirstNews(channel, parts, k, |s.h|);
    forall n | n in d && d[n].end > |s.h|
      ensures n in News(channel, parts, |s.h|)
    {
      assert n in s.d ==> EntryOk(n, s.d[n], s.h, s.ch);
    }
    AsIfNeverTried(s, r, channel, inputLength, text, k, channel, inputLength, text);
  }

  // ---- What holds after any failures ----

  /** Files are named by their contents, none reaches across the next cursor, and those before it hold
      disjoint pieces of the text. */
  ghost predicate Usable(d: Directory, h: Bytes, ch: seq<Channel>) {
    && Indexed(d)
    && (forall n: FileName | n in d && n.ChunkFile? :: n.end <= |h| || n.start >= |h|)
    && WellFormed(Base(d, |h|), h, ch)
  }

  ghost predicate Aftermath(s: Stream) {
    IsText(s.h) && Usable(s.d, s.h, s.ch)
  }

  lemma CleanIsUsable(d: Directory, h: Bytes, ch: seq<Channel>)
    requires WellFormed(d, h, ch)
    ensures Usable(d, h, ch) && Base(d, |h|) == d
  {
    WellFormedIsIndexed(d, h, ch);
    WellFormedEndsBy(d, h, ch);
    assert forall n | n in d :: EntryOk(n, d[n], h, ch);
  }

  lemma MergeKeepsBase(d: Directory, news: Directory, at: nat)
    requires Indexed(d) && forall n: FileName | n in d && n.ChunkFile? :: n.end <= at || n.start >= at
    requires forall n | n in news :: n == NameOf(news[n]) && !news[n].marker && at <= news[n].start < news[n].end
    ensures Base(d + news, at) == Base(d, at)
  {
    forall n | n in news
      ensures n !in Base(d, at) && n !in Base(d + news, at)
    {
      assert n in d ==> Named(n, d[n]);
    }
  }

  /** Writing from the next cursor on keeps what is before it. */
  lemma WritingKeeps(d: Directory, h: Bytes, ch: seq<Channel>, channel: Channel, text: Bytes, k: nat)
    requires Usable(d, h, ch) && IsText(text) && |h| + |text| < U64_BOUND && k <= |Split(text, CHUNK_BYTES)|
    ensures Usable(Written(d, channel, Split(text, CHUNK_BYTES)[..k], |h|), h, ch)
    ensures Base(Written(d, channel, Split(text, CHUNK_BYTES)[..k], |h|), |h|) == Base(d, |h|)
  {
    var parts := Split(text, CHUNK_BYTES);
    SplitLosesNothing(text, CHUNK_BYTES);
    WrittenIsMerge(d, channel, parts[..k], |h|);
    NewsAre(channel, parts[..k], |h|);
    MergeKeepsBase(d, News(channel, parts[..k], |h|), |h|);
    WrittenIndexed(d, channel, text, |h|);
    FirstPartEdits(channel, parts, k, |h|);
    PartsWrite(d, channel, parts[..k], |h|);
    SafeKeeps(d, PartEdits(channel, parts, |h|)[..k]);
  }

  // ---- A cut-off pass ----

  lemma PassIndexed(d: Directory, cs: seq<DiskChunk>, r: LogRetention, tailStart: nat, j: nat)
    requires Indexed(d) && Holding(d, cs) && j <= |PassEdits(cs, r, tailStart)|
    ensures Indexed(EditedAll(d, PassEdits(cs, r, tailStart)[..j]))
  {
    ListedNamed(d, cs);
    SafePass(d, cs, r, tailStart);
    SafeKeeps(d, PassEdits(cs, r, tailStart)[..j]);
  }

  /** What ends before the cursor came from a file that does. */
  lemma BaseFrom(d: Directory, edits: seq<Edit>, r: LogRetention, tailStart: nat, x: DiskChunk, m: FileName, h: Bytes,
                 ch: seq<Channel>)
    requires Usable(d, h, ch) && Origin(d, edits, r, tailStart, x, m) && x.end <= |h|
    ensures m in Base(d, |h|) && EntryOk(NameOf(x), x, h, ch)
  {
    OriginWithin(d, edits, r, tailStart, x, m);
    assert Named(m, d[m]);
    assert d[m].end <= |h|;
    assert m in Base(d, |h|);
    if Remove(m) in edits {
      LeavesFaithful(d[m], r, tailStart, x, h, ch);
    }
  }

  lemma PassParted(d: Directory, cs: seq<DiskChunk>, r: LogRetention, tailStart: nat, j: nat, n: FileName, h: Bytes,
                   ch: seq<Channel>)
    requires Usable(d, h, ch) && Holding(d, cs) && j <= |PassEdits(cs, r, tailStart)|
    requires n in EditedAll(d, PassEdits(cs, r, tailStart)[..j]) && n.ChunkFile?
    ensures n.end <= |h| || n.start >= |h|
  {
    var edits := PassEdits(cs, r, tailStart)[..j];
    PassIndexed(d, cs, r, tailStart, j);
    var x := EditedAll(d, edits)[n];
    assert Named(n, x);
    var m := PassOrigin(d, cs, r, tailStart, j, n);
    OriginWithin(d, edits, r, tailStart, x, m);
    assert Named(m, d[m]);
  }

  lemma PassBaseApart(d: Directory, cs: seq<DiskChunk>, r: LogRetention, tailStart: nat, j: nat, n1: FileName, n2: FileName,
                      h: Bytes, ch: seq<Channel>)
    requires Usable(d, h, ch) && Holding(d, cs) && j <= |PassEdits(cs, r, tailStart)|
    requires var e := Base(EditedAll(d, PassEdits(cs, r, tailStart)[..j]), |h|); n1 in e && n2 in e && n1 != n2
    ensures var e := EditedAll(d, PassEdits(cs, r, tailStart)[..j]); Apart(e[n1], e[n2])
  {
    var edits := PassEdits(cs, r, tailStart)[..j];
    PassIndexed(d, cs, r, tailStart, j);
    var e := EditedAll(d, edits);
    assert Named(n1, e[n1]) && Named(n2, e[n2]);
    var m1 := PassOrigin(d, cs, r, tailStart, j, n1);
    var m2 := PassOrigin(d, cs, r, tailStart, j, n2);
    BaseFrom(d, edits, r, tailStart, e[n1], m1, h, ch);
    BaseFrom(d, edits, r, tailStart, e[n2], m2, h, ch);
    OriginsApart(d, edits, r, tailStart, e[n1], m1, e[n2], m2);
  }

  lemma PassEntry(d: Directory, cs: seq<DiskChunk>, r: LogRetention, tailStart: nat, j: nat, n: FileName, h: Bytes,
                  ch: seq<Channel>)
    requires Usable(d, h, ch) && Holding(d, cs) && j <= |PassEdits(cs, r, tailStart)|
    requires n in Base(EditedAll(d, PassEdits(cs, r, tailStart)[..j]), |h|)
    ensures EntryOk(n, EditedAll(d, PassEdits(cs, r, tailStart)[..j])[n], h, ch)
  {
    var edits := PassEdits(cs, r, tailStart)[..j];
    PassIndexed(d, cs, r, tailStart, j);
    assert Named(n, EditedAll(d, edits)[n]);
    var m := PassOrigin(d, cs, r, tailStart, j, n);
    BaseFrom(d, edits, r, tailStart, EditedAll(d, edits)[n], m, h, ch);
  }

  /** However far a pass gets, over whatever files, it keeps what is before the cursor faithful and disjoint. */
  lemma PassKeeps(d: Directory, cs: seq<DiskChunk>, r: LogRetention, tailStart: nat, j: nat, h: Bytes, ch: seq<Channel>)
    requires Usable(d, h, ch) && Holding(d, cs) && j <= |PassEdits(cs, r, tailStart)|
    ensures Usable(EditedAll(d, PassEdits(cs, r, tailStart)[..j]), h, ch)
  {
    PassIndexed(d, cs, r, tailStart, j);
    var e := EditedAll(d, PassEdits(cs, r, tailStart)[..j]);
    forall n: FileName | n in e && n.ChunkFile?
      ensures n.end <= |h| || n.start >= |h|
    {
      PassParted(d, cs, r, tailStart, j, n, h, ch);
    }
    forall n | n in Base(e, |h|)
      ensures EntryOk(n, e[n], h, ch)
    {
      PassEntry(d, cs, r, tailStart, j, n, h, ch);
    }
    forall n1, n2 | n1 in Base(e, |h|) && n2 in Base(e, |h|) && n1 != n2
      ensures Apart(e[n1], e[n2])
    {
      PassBaseApart(d, cs, r, tailStart, j, n1, n2, h, ch);
    }
  }

  // ---- A cut-off append ----

  lemma MarkerGone(d: Directory, h: Bytes, ch: seq<Channel>)
    requires Usable(d, h, ch)
    ensures Usable(d - {MarkerFile}, h, ch)
  {
    var e := d - {MarkerFile};
    assert forall n | n in Base(e, |h|) :: n in Base(d, |h|);
    forall n | n in Base(e, |h|)
      ensures EntryOk(n, e[n], h, ch)
    {
      assert EntryOk(n, Base(d, |h|)[n], h, ch);
    }
  }

  /** A marker that ends before the cursor names a range that no file before the cursor holds. */
  ghost predicate MarkerFits(d: Directory, c: DiskChunk, h: Bytes) {
    && Named(MarkerFile, c)
    && (c.end <= |h| ==> MarkerOk(c, |h|) && forall n: FileName | n in Base(d, |h|) && n.ChunkFile? :: Apart(d[n], c))
  }

  lemma MarkerPut(d: Directory, c: DiskChunk, h: Bytes, ch: seq<Channel>)
    requires Usable(d, h, ch) && MarkerFits(d, c, h)
    ensures Usable(d[MarkerFile := c], h, ch)
  {
    var e := d[MarkerFile := c];
    forall n | n in Base(e, |h|)
      ensures EntryOk(n, e[n], h, ch)
    {
      assert n == MarkerFile || EntryOk(n, Base(d, |h|)[n], h, ch);
    }
    forall m, n | m in Base(e, |h|) && n in Base(e, |h|) && m != n
      ensures Apart(e[m], e[n])
    {
      assert m != MarkerFile ==> m in Base(d, |h|);
      assert n != MarkerFile ==> n in Base(d, |h|);
    }
  }

  lemma BaseFaithful(d: Directory, n: FileName, h: Bytes, ch: seq<Channel>, t: Bytes, tc: seq<Channel>)
    requires Usable(d, h, ch) && n in Base(d, |h|) && n.ChunkFile?
    requires IsText(t) && |t| == |tc| && |h| + |t| < U64_BOUND
    ensures Faithful(d[n], h + t, ch + tc)
  {
    ExtendHistory(Base(d, |h|), h, ch, t, tc);
    assert EntryOk(n, Base(d, |h|)[n], h + t, ch + tc);
  }

  /** A dropped range that ends before the cursor lies within the cut of the text. */
  lemma DroppedIsCut(d: Directory, cs: seq<DiskChunk>, r: LogRetention, h: Bytes, ch: seq<Channel>, t: Bytes,
                     tc: seq<Channel>)
    requires r.Valid() && Usable(d, h, ch) && Holding(d, cs) && IsText(t) && |t| == |tc| && |h| + |t| < U64_BOUND
    requires var s := Pass(d, cs, r, TailStart(h + t, r)); s.dropped.Some? && s.droppedEnd <= |h|
    ensures var s := Pass(d, cs, r, TailStart(h + t, r));
            && |h + t| > r.rawLimitBytes
            && HeadEnd(h + t, r) <= s.dropped.value && s.droppedEnd <= TailBegin(h + t, r)
  {
    var tail := TailStart(h + t, r);
    var first, last := DroppedEnds(d, cs, r, tail);
    ListedNamed(d, cs);
    SafePass(d, cs, r, tail);
    CutIsWide(last, r, tail);
    BaseFaithful(d, NameOf(first), h, ch, t, tc);
    BaseFaithful(d, NameOf(last), h, ch, t, tc);
    CutIsInside(first, h + t, ch + tc, r);
    CutIsInside(last, h + t, ch + tc, r);
  }

  /** What the pass leaves before the cursor lies outside of it. */
  lemma KeptIsOutside(d: Directory, cs: seq<DiskChunk>, r: LogRetention, h: Bytes, ch: seq<Channel>, t: Bytes,
                      tc: seq<Channel>,
                      n: FileName)
    requires r.Valid() && Usable(d, h, ch) && Holding(d, cs) && IsText(t) && |t| == |tc| && |h| + |t| < U64_BOUND
    requires |h + t| > r.rawLimitBytes && n.ChunkFile? && n in Base(EditedAll(d, PassEdits(cs, r, TailStart(h + t, r))), |h|)
    ensures var x := EditedAll(d, PassEdits(cs, r, TailStart(h + t, r)))[n];
            x.end <= HeadEnd(h + t, r) || x.start >= TailBegin(h + t, r)
  {
    var tail := TailStart(h + t, r);
    var edits := PassEdits(cs, r, tail);
    var x := EditedAll(d, edits)[n];
    assert edits[..|edits|] == edits;
    PassIndexed(d, cs, r, tail, |edits|);
    assert Named(n, x);
    var m := WholePassOrigin(d, cs, r, tail, n);
    assert Named(m, d[m]);
    LeavesSkips(d[m], r, tail, x);
    BaseFaithful(d, m, h, ch, t, tc);
    LeavesOutside(d[m], x, h + t, ch + tc, r);
  }

  lemma MarkerStage(d: Directory, cs: seq<DiskChunk>, r: LogRetention, j: nat, h: Bytes, ch: seq<Channel>, t: Bytes,
                    tc: seq<Channel>)
    requires r.Valid() && Usable(d, h, ch) && Holding(d, cs) && IsText(t) && |t| == |tc| && |h| + |t| < U64_BOUND
    requires var s := Pass(d, cs, r, TailStart(h + t, r)); j <= |MarkerEdits(s)|
    ensures var s := Pass(d, cs, r, TailStart(h + t, r)); Usable(EditedAll(s.directory, MarkerEdits(s)[..j]), h, ch)
  {
    var tail := TailStart(h + t, r);
    var s, edits := Pass(d, cs, r, tail), PassEdits(cs, r, tail);
    assert edits[..|edits|] == edits;
    PassKeeps(d, cs, r, tail, |edits|, h, ch);
    PassIsEdited(d, cs, r, tail);
    var marking := MarkerEdits(s);
    if j == 1 {
      assert marking[..1] == [marking[0]];
      EditedOne(s.directory, marking[0]);
      MarkerGone(s.directory, h, ch);
    } else if j == 2 {
      assert marking[..2] == marking;
      MarkerIsPut(s.directory, s);
      NewMarkerFits(d, cs, r, h, ch, t, tc);
      MarkerPut(s.directory, Marker(s.dropped.value, s.droppedEnd), h, ch);
    }
  }

  lemma NewMarkerFits(d: Directory, cs: seq<DiskChunk>, r: LogRetention, h: Bytes, ch: seq<Channel>, t: Bytes,
                      tc: seq<Channel>)
    requires r.Valid() && Usable(d, h, ch) && Holding(d, cs) && IsText(t) && |t| == |tc| && |h| + |t| < U64_BOUND
    requires Pass(d, cs, r, TailStart(h + t, r)).dropped.Some?
    ensures var s := Pass(d, cs, r, TailStart(h + t, r)); MarkerFits(s.directory, Marker(s.dropped.value, s.droppedEnd), h)
  {
    var tail := TailStart(h + t, r);
    var s := Pass(d, cs, r, tail);
    ListedNamed(d, cs);
    SafePass(d, cs, r, tail);
    PassIsEdited(d, cs, r, tail);
    if s.droppedEnd <= |h| {
      DroppedIsCut(d, cs, r, h, ch, t, tc);
      forall n: FileName | n in Base(s.directory, |h|) && n.ChunkFile?
        ensures Apart(s.directory[n], Marker(s.dropped.value, s.droppedEnd))
      {
        KeptIsOutside(d, cs, r, h, ch, t, tc, n);
      }
    }
  }

  lemma RetentionKeeps(d: Directory, cs: seq<DiskChunk>, r: LogRetention, j: nat, h: Bytes, ch: seq<Channel>, t: Bytes,
                       tc: seq<Channel>)
    requires r.Valid() && Usable(d, h, ch) && Holding(d, cs) && IsText(t) && |t| == |tc| && |h| + |t| < U64_BOUND
    requires j <= |RetentionEdits(d, cs, r, TailStart(h + t, r))|
    ensures Usable(EditedAll(d, RetentionEdits(d, cs, r, TailStart(h + t, r))[..j]), h, ch)
  {
    var tail := TailStart(h + t, r);
    var pass, marking := PassEdits(cs, r, tail), MarkerEdits(Pass(d, cs, r, tail));
    if j <= |pass| {
      PrefixWithin(pass, marking, j);
      PassKeeps(d, cs, r, tail, j, h, ch);
    } else {
      PrefixBeyond(d, pass, marking, j);
      PassIsEdited(d, cs, r, tail);
      MarkerStage(d, cs, r, j - |pass|, h, ch, t, tc);
    }
  }

  /** The files after the first `k` operations of an append that reads the listing `cs`. */
  ghost function FilesOver(s: Stream, r: LogRetention, channel: Channel, inputLength: nat, text: Bytes,
                           cs: seq<DiskChunk>, k: nat): Directory
    requires r.Valid() && IsText(text) && k <= |EditsOver(s, r, channel, inputLength, text, cs)|
  {
    EditedAll(s.d, EditsOver(s, r, channel, inputLength, text, cs)[..k])
  }

  /** What an append asks of its text: it is text, and its cursors have 64 bits. */
  ghost predicate Appendable(s: Stream, text: Bytes) {
    IsText(text) && |s.h| + |text| < U64_BOUND
  }

  lemma WholeWriting(s: Stream, channel: Channel, text: Bytes)
    requires Aftermath(s) && Appendable(s, text)
    ensures Usable(Written(s.d, channel, Split(text, CHUNK_BYTES), |s.h|), s.h, s.ch)
    ensures Base(Written(s.d, channel, Split(text, CHUNK_BYTES), |s.h|), |s.h|) == Base(s.d, |s.h|)
  {
    var parts := Split(text, CHUNK_BYTES);
    assert parts[..|parts|] == parts;
    WritingKeeps(s.d, s.h, s.ch, channel, text, |parts|);
  }

  /** The files of an append that was cut off after it had written its text. */
  lemma FilesOverCut(s: Stream, r: LogRetention, channel: Channel, inputLength: nat, text: Bytes, cs: seq<DiskChunk>, k: nat)
    requires r.Valid() && Appendable(s, text)
    requires |Split(text, CHUNK_BYTES)| <= k <= |EditsOver(s, r, channel, inputLength, text, cs)|
    ensures var e, j := Written(s.d, channel, Split(text, CHUNK_BYTES), |s.h|), k - |Split(text, CHUNK_BYTES)|;
            if Cuts(s, r, inputLength) then
              && j <= |RetentionEdits(e, cs, r, TailStart(s.h + text, r))|
              && FilesOver(s, r, channel, inputLength, text, cs, k)
                 == EditedAll(e, RetentionEdits(e, cs, r, TailStart(s.h + text, r))[..j])
            else FilesOver(s, r, channel, inputLength, text, cs, k) == e
  {
    var parts := Split(text, CHUNK_BYTES);
    var e, writing := Written(s.d, channel, parts, |s.h|), PartEdits(channel, parts, |s.h|);
    PartsWrite(s.d, channel, parts, |s.h|);
    if Cuts(s, r, inputLength) {
      PrefixBeyond(s.d, writing, RetentionEdits(e, cs, r, TailStart(s.h + text, r)), k);
    } else {
      assert EditsOver(s, r, channel, inputLength, text, cs) == writing && writing[..k] == writing;
    }
  }

  lemma FilesOverWriting(s: Stream, r: LogRetention, channel: Channel, inputLength: nat, text: Bytes, cs: seq<DiskChunk>,
                         k: nat)
    requires r.Valid() && Appendable(s, text) && k <= |Split(text, CHUNK_BYTES)|
    requires k <= |EditsOver(s, r, channel, inputLength, text, cs)|
    ensures FilesOver(s, r, channel, inputLength, text, cs, k) == Written(s.d, channel, Split(text, CHUNK_BYTES)[..k], |s.h|)
  {
    var parts, edits := Split(text, CHUNK_BYTES), EditsOver(s, r, channel, inputLength, text, cs);
    assert edits[..k] == PartEdits(channel, parts, |s.h|)[..k];
    FirstPartEdits(channel, parts, k, |s.h|);
    PartsWrite(s.d, channel, parts[..k], |s.h|);
  }

  /** Whatever files earlier failures left, and wherever an append is cut off: what ends by the next cursor
      stays faithful to the text, stored once. */
  lemma CutOffKeeps(s: Stream, r: LogRetention, channel: Channel, inputLength: nat, text: Bytes, cs: seq<DiskChunk>, k: nat)
    requires r.Valid() && Aftermath(s) && Appendable(s, text) && k <= |EditsOver(s, r, channel, inputLength, text, cs)|
    requires Lists(Written(s.d, channel, Split(text, CHUNK_BYTES), |s.h|), cs)
    ensures Aftermath(s.(d := FilesOver(s, r, channel, inputLength, text, cs, k)))
  {
    var parts := Split(text, CHUNK_BYTES);
    if k <= |parts| {
      FilesOverWriting(s, r, channel, inputLength, text, cs, k);
      WritingKeeps(s.d, s.h, s.ch, channel, text, k);
    } else {
      FilesOverCut(s, r, channel, inputLength, text, cs, k);
      WholeWriting(s, channel, text);
      if Cuts(s, r, inputLength) {
        RetentionKeeps(Written(s.d, channel, parts, |s.h|), cs, r, k - |parts|, s.h, s.ch, text, seq(|text|, _ => channel));
      }
    }
  }

  // ---- A completed append ----

  ghost predicate LeftOf(d: Directory, r: LogRetention, tailStart: nat, x: DiskChunk) {
    exists m :: m in d && Leaves(d[m], r, tailStart, x)
  }

  /** What a pass leaves of the payload in `d` before `at`, it also leaves of a file in `b`. */
  ghost predicate Covered(d: Directory, b: Directory, r: LogRetention, tailStart: nat, at: nat) {
    forall m, x | m in d && Leaves(d[m], r, tailStart, x) && !x.marker && x.start < at :: LeftOf(b, r, tailStart, x)
  }

  lemma PiecesApart(b: Directory, r: LogRetention, tailStart: nat, x: DiskChunk, y: DiskChunk, h: Bytes, ch: seq<Channel>)
    requires WellFormed(b, h, ch) && LeftOf(b, r, tailStart, x) && LeftOf(b, r, tailStart, y) && x != y
    ensures Apart(x, y)
  {
    WellFormedIsIndexed(b, h, ch);
    var m :| m in b && Leaves(b[m], r, tailStart, x);
    var n :| n in b && Leaves(b[n], r, tailStart, y);
    assert Named(m, b[m]) && Named(n, b[n]);
    LeavesSkips(b[m], r, tailStart, x);
    LeavesSkips(b[n], r, tailStart, y);
    if m == n {
      PartsApart(b[m], r, tailStart, x, y);
    }
  }

  lemma PieceFaithful(b: Directory, r: LogRetention, tailStart: nat, x: DiskChunk, h: Bytes, ch: seq<Channel>)
    requires WellFormed(b, h, ch) && LeftOf(b, r, tailStart, x) && !x.marker
    ensures Faithful(x, h, ch)
  {
    var m :| m in b && Leaves(b[m], r, tailStart, x);
    assert EntryOk(m, b[m], h, ch);
    LeavesFaithful(b[m], r, tailStart, x, h, ch);
  }

  lemma PieceOf(d: Directory, cs: seq<DiskChunk>, b: Directory, r: LogRetention, tailStart: nat, n: FileName, at: nat)
    requires Indexed(d) && Holding(d, cs) && Covered(d, b, r, tailStart, at)
    requires n in EditedAll(d, PassEdits(cs, r, tailStart)) && n.ChunkFile? && n.start < at
    ensures var x := EditedAll(d, PassEdits(cs, r, tailStart))[n]; Named(n, x) && LeftOf(b, r, tailStart, x)
  {
    var edits := PassEdits(cs, r, tailStart);
    assert edits[..|edits|] == edits;
    PassIndexed(d, cs, r, tailStart, |edits|);
    var x := EditedAll(d, edits)[n];
    assert Named(n, x);
    var m := WholePassOrigin(d, cs, r, tailStart, n);
    assert Leaves(d[m], r, tailStart, x);
  }

  lemma CoveredEntry(d: Directory, cs: seq<DiskChunk>, b: Directory, r: LogRetention, tailStart: nat, n: FileName,
                     h: Bytes, ch: seq<Channel>)
    requires Indexed(d) && Holding(d, cs) && WellFormed(b, h, ch) && Covered(d, b, r, tailStart, |h|)
    requires n in EditedAll(d, PassEdits(cs, r, tailStart)) && n.ChunkFile? && n.start < |h|
    ensures var x := EditedAll(d, PassEdits(cs, r, tailStart))[n];
            Named(n, x) && LeftOf(b, r, tailStart, x) && EntryOk(n, x, h, ch) && n.end <= |h|
  {
    PieceOf(d, cs, b, r, tailStart, n, |h|);
    PieceFaithful(b, r, tailStart, EditedAll(d, PassEdits(cs, r, tailStart))[n], h, ch);
  }

  lemma CoveredApart(d: Directory, cs: seq<DiskChunk>, b: Directory, r: LogRetention, tailStart: nat, m: FileName,
                     n: FileName,
                     h: Bytes, ch: seq<Channel>)
    requires Indexed(d) && Holding(d, cs) && WellFormed(b, h, ch) && Covered(d, b, r, tailStart, |h|) && m != n
    requires var e := EditedAll(d, PassEdits(cs, r, tailStart));
             m in e && m.ChunkFile? && m.start < |h| && n in e && n.ChunkFile? && n.start < |h|
    ensures var e := EditedAll(d, PassEdits(cs, r, tailStart)); Apart(e[m], e[n])
  {
    var e := EditedAll(d, PassEdits(cs, r, tailStart));
    CoveredEntry(d, cs, b, r, tailStart, m, h, ch);
    CoveredEntry(d, cs, b, r, tailStart, n, h, ch);
    PiecesApart(b, r, tailStart, e[m], e[n], h, ch);
  }

  lemma UsableFrom(d: Directory, h: Bytes, ch: seq<Channel>)
    requires Indexed(d) && MarkerFile !in d && |h| == |ch| < U64_BOUND
    requires forall n: FileName | n in d && n.start < |h| :: n.end <= |h| && EntryOk(n, d[n], h, ch)
    requires forall m: FileName, n: FileName | m in d && m.start < |h| && n in d && n.start < |h|
             && m != n :: Apart(d[m], d[n])
    ensures Usable(d, h, ch)
  {
    assert forall n | n in d :: Named(n, d[n]);
    assert forall n | n in Base(d, |h|) :: n.start < |h|;
  }

  /** Then the chunk files the pass leaves are those it leaves of `b`, and others beyond the text. */
  lemma CoveredIsUsable(d: Directory, cs: seq<DiskChunk>, b: Directory, r: LogRetention, tailStart: nat, h: Bytes,
                        ch: seq<Channel>)
    requires Indexed(d) && Holding(d, cs) && WellFormed(b, h, ch) && Covered(d, b, r, tailStart, |h|)
    ensures Usable(EditedAll(d, PassEdits(cs, r, tailStart)) - {MarkerFile}, h, ch)
  {
    var edits := PassEdits(cs, r, tailStart);
    var all := EditedAll(d, edits);
    var e := all - {MarkerFile};
    assert edits[..|edits|] == edits;
    PassIndexed(d, cs, r, tailStart, |edits|);
    assert Indexed(e);
    forall n: FileName | n in e && n.start < |h|
      ensures n.end <= |h| && EntryOk(n, e[n], h, ch)
    {
      CoveredEntry(d, cs, b, r, tailStart, n, h, ch);
    }
    forall m: FileName, n: FileName | m in e && m.start < |h| && n in e && n.start < |h| && m != n
      ensures Apart(e[m], e[n])
    {
      CoveredApart(d, cs, b, r, tailStart, m, n, h, ch);
    }
    UsableFrom(e, h, ch);
  }

  /** Where the tail of an append starts that cuts; zero stands for no cut. */
  ghost function CutTail(s: Stream, r: LogRetention, inputLength: nat, text: Bytes): nat
    requires r.Valid()
  {
    if Cuts(s, r, inputLength) then TailStart(s.h + text, r) else 0
  }

  lemma {:induction false} NothingBeforeZero(d: Directory, cs: seq<DiskChunk>, r: LogRetention)
    ensures PassEdits(cs, r, 0) == [] && Pass(d, cs, r, 0) == PassState(d, None, 0)
    decreases |cs|
  {
    if |cs| > 0 {
      NothingBeforeZero(d, cs[..|cs| - 1], r);
      assert Skips(cs[|cs| - 1], r, 0);
      SkipsMakeNoEdits(PassState(d, None, 0), cs[|cs| - 1], r, 0);
    }
  }

  lemma AfterIsCut(s: Stream, r: LogRetention, channel: Channel, inputLength: nat, text: Bytes, cs: seq<DiskChunk>,
                   measured: seq<DiskChunk>)
    requires r.Valid() && IsText(text)
    ensures AfterOver(s, r, channel, inputLength, text, cs, measured).d
         == Cut(Written(s.d, channel, Split(text, CHUNK_BYTES), |s.h|), cs, r, CutTail(s, r, inputLength, text))
  {
    NothingBeforeZero(Written(s.d, channel, Split(text, CHUNK_BYTES), |s.h|), cs, r);
  }

  /** All that the cut leaves of `c` it also leaves of a file in `news`, and what it drops of `c` lies
      within what it drops of the text `h`. */
  ghost predicate Absorbed(c: DiskChunk, news: Directory, h: Bytes, r: LogRetention, tailStart: nat)
    requires r.Valid()
  {
    && (forall x | Leaves(c, r, tailStart, x) :: LeftOf(news, r, tailStart, x))
    && (!Skips(c, r, tailStart) ==>
          && r.headBytes <= |h|
          && HeadEnd(h, r) <= c.start + PrefixLen(c, r) && c.start + SuffixStart(c, r, tailStart) <= TailBegin(h, r))
  }

  ghost predicate SomethingCut(d: Directory, r: LogRetention, tailStart: nat) {
    exists n :: n in d && !Skips(d[n], r, tailStart)
  }

  /** The append deals with every file that failed ones left where its text goes: it overwrites the file, or
      its cut absorbs it; and it replaces a marker that ends there. */
  ghost predicate Tidy(s: Stream, r: LogRetention, channel: Channel, inputLength: nat, text: Bytes)
    requires r.Valid() && IsText(text)
  {
    var h, tail, news := s.h + text, CutTail(s, r, inputLength, text), News(channel, Split(text, CHUNK_BYTES), |s.h|);
    && (forall n: FileName | n in s.d && n.ChunkFile? && |s.h| <= n.start < |h|
       && n !in news :: Absorbed(s.d[n], news, h, r, tail))
    && (MarkerFile in s.d && |s.h| < s.d[MarkerFile].end <= |h| ==> SomethingCut(s.d + news, r, tail))
  }

  /** The files the append would have after writing if nothing had failed before. */
  function CleanFiles(s: Stream, channel: Channel, text: Bytes): Directory
    requires IsText(text)
  {
    Base(s.d, |s.h|) + News(channel, Split(text, CHUNK_BYTES), |s.h|)
  }

  lemma CleanFilesWellFormed(s: Stream, channel: Channel, text: Bytes)
    requires Aftermath(s) && Appendable(s, text)
    ensures IsText(s.h + text) && WellFormed(CleanFiles(s, channel, text), s.h + text, s.ch + seq(|text|, _ => channel))
  {
    WrittenFromEnd(Base(s.d, |s.h|), s.h, s.ch, channel, text);
    WrittenIsMerge(Base(s.d, |s.h|), channel, Split(text, CHUNK_BYTES), |s.h|);
  }

  lemma NewsOf(channel: Channel, text: Bytes, at: nat)
    requires IsText(text)
    ensures forall n | n in News(channel, Split(text, CHUNK_BYTES), at) ::
              var c := News(channel, Split(text, CHUNK_BYTES), at)[n]; n == NameOf(c) && !c.marker && at <= c.start < c.end
  {
    SplitLosesNothing(text, CHUNK_BYTES);
    NewsAre(channel, Split(text, CHUNK_BYTES), at);
  }

  /** A file after the writes is clean, or a leftover that is not overwritten, or the marker. */
  lemma AfterTheWrites(s: Stream, channel: Channel, text: Bytes, m: FileName)
    requires Aftermath(s) && Appendable(s, text) && m in s.d + News(channel, Split(text, CHUNK_BYTES), |s.h|)
    ensures var e, b := s.d + News(channel, Split(text, CHUNK_BYTES), |s.h|), CleanFiles(s, channel, text);
            || (m in b && b[m] == e[m])
            || (m in s.d && e[m] == s.d[m] && m !in News(channel, Split(text, CHUNK_BYTES), |s.h|)
                && (m.ChunkFile? ==> |s.h| <= m.start == e[m].start) && |s.h| < e[m].end)
  {
    NewsOf(channel, text, |s.h|);
    assert m in s.d ==> Named(m, s.d[m]);
  }

  lemma TidyIsCovered(s: Stream, r: LogRetention, channel: Channel, inputLength: nat, text: Bytes)
    requires r.Valid() && Aftermath(s) && Appendable(s, text) && Tidy(s, r, channel, inputLength, text)
    ensures Covered(s.d + News(channel, Split(text, CHUNK_BYTES), |s.h|), CleanFiles(s, channel, text), r,
                    CutTail(s, r, inputLength, text), |s.h + text|)
  {
    var news, b, tail := News(channel, Split(text, CHUNK_BYTES), |s.h|), CleanFiles(s, channel, text), CutTail(s, r,
        inputLength, text);
    var e := s.d + news;
    forall m, x | m in e && Leaves(e[m], r, tail, x) && !x.marker && x.start < |s.h + text|
      ensures LeftOf(b, r, tail, x)
    {
      AfterTheWrites(s, channel, text, m);
      if m !in b || b[m] != e[m] {
        LeftoverIsCovered(s, r, channel, inputLength, text, m, x);
      }
    }
  }

  lemma LeftoverIsCovered(s: Stream, r: LogRetention, channel: Channel, inputLength: nat, text: Bytes, m: FileName,
                          x: DiskChunk)
    requires r.Valid() && Aftermath(s) && Appendable(s, text) && Tidy(s, r, channel, inputLength, text)
    requires m in s.d && m !in News(channel, Split(text, CHUNK_BYTES), |s.h|) && (m.ChunkFile? ==> |s.h| <= m.start)
    requires Leaves(s.d[m], r, CutTail(s, r, inputLength, text), x) && !x.marker && x.start < |s.h + text|
    ensures LeftOf(CleanFiles(s, channel, text), r, CutTail(s, r, inputLength, text), x)
  {
    var news, tail := News(channel, Split(text, CHUNK_BYTES), |s.h|), CutTail(s, r, inputLength, text);
    assert Named(m, s.d[m]);
    LeavesSkips(s.d[m], r, tail, x);
    assert Absorbed(s.d[m], news, s.h + text, r, tail);
    var k :| k in news && Leaves(news[k], r, tail, x);
    assert CleanFiles(s, channel, text)[k] == news[k];
  }

  // ---- Its marker ----

  /** What is dropped of a file after the writes lies within the cut of the text. */
  lemma TidyDrop(s: Stream, r: LogRetention, channel: Channel, inputLength: nat, text: Bytes, m: FileName)
    requires r.Valid() && Aftermath(s) && Appendable(s, text) && Tidy(s, r, channel, inputLength, text)
    requires var e := s.d + News(channel, Split(text, CHUNK_BYTES), |s.h|);
             m in e && !Skips(e[m], r, CutTail(s, r, inputLength, text))
    ensures var e, h, tail := s.d + News(channel, Split(text, CHUNK_BYTES), |s.h|), s.h + text, CutTail(s, r,
            inputLength, text);
            && tail == TailStart(h, r) && |h| > r.rawLimitBytes
            && HeadEnd(h, r) <= e[m].start + PrefixLen(e[m], r) && e[m].start + SuffixStart(e[m], r, tail) <= TailBegin(h, r)
  {
    var e, b := s.d + News(channel, Split(text, CHUNK_BYTES), |s.h|), CleanFiles(s, channel, text);
    var h, ch := s.h + text, s.ch + seq(|text|, _ => channel);
    AfterTheWrites(s, channel, text, m);
    if m in b && b[m] == e[m] {
      CleanFilesWellFormed(s, channel, text);
      assert EntryOk(m, b[m], h, ch);
      CutIsInside(b[m], h, ch, r);
    }
  }

  lemma TidyMarker(s: Stream, r: LogRetention, channel: Channel, inputLength: nat, text: Bytes, cs: seq<DiskChunk>)
    requires r.Valid() && Aftermath(s) && Appendable(s, text) && Tidy(s, r, channel, inputLength, text)
    requires var e, tail := s.d + News(channel, Split(text, CHUNK_BYTES), |s.h|), CutTail(s, r, inputLength, text);
             Indexed(e) && Holding(e, cs) && Pass(e, cs, r, tail).dropped.Some?
    ensures var e, h, tail := s.d + News(channel, Split(text, CHUNK_BYTES), |s.h|), s.h + text, CutTail(s, r,
            inputLength, text);
            var p := Pass(e, cs, r, tail);
            && tail == TailStart(h, r) && |h| > r.rawLimitBytes
            && HeadEnd(h, r) <= p.dropped.value < p.droppedEnd <= TailBegin(h, r)
  {
    var e, tail := s.d + News(channel, Split(text, CHUNK_BYTES), |s.h|), CutTail(s, r, inputLength, text);
    var first, last := DroppedEnds(e, cs, r, tail);
    TidyDrop(s, r, channel, inputLength, text, NameOf(first));
    TidyDrop(s, r, channel, inputLength, text, NameOf(last));
    ListedNamed(e, cs);
    SafePass(e, cs, r, tail);
  }

  lemma TidyMarkerFits(s: Stream, r: LogRetention, channel: Channel, inputLength: nat, text: Bytes, cs: seq<DiskChunk>)
    requires r.Valid() && Aftermath(s) && Appendable(s, text) && Tidy(s, r, channel, inputLength, text)
    requires var e, tail := s.d + News(channel, Split(text, CHUNK_BYTES), |s.h|), CutTail(s, r, inputLength, text);
             Indexed(e) && Holding(e, cs) && Pass(e, cs, r, tail).dropped.Some?
    ensures var e, tail := s.d + News(channel, Split(text, CHUNK_BYTES), |s.h|), CutTail(s, r, inputLength, text);
            var p := Pass(e, cs, r, tail);
            MarkerFits(EditedAll(e, PassEdits(cs, r, tail)) - {MarkerFile}, Marker(p.dropped.value, p.droppedEnd), s.h + text)
  {
    var e, tail := s.d + News(channel, Split(text, CHUNK_BYTES), |s.h|), CutTail(s, r, inputLength, text);
    var p, h := Pass(e, cs, r, tail), s.h + text;
    TidyMarker(s, r, channel, inputLength, text, cs);
    TidyIsCovered(s, r, channel, inputLength, text);
    CleanFilesWellFormed(s, channel, text);
    var d := EditedAll(e, PassEdits(cs, r, tail)) - {MarkerFile};
    forall n: FileName | n in Base(d, |h|) && n.ChunkFile?
      ensures Apart(d[n], Marker(p.dropped.value, p.droppedEnd))
    {
      TidyPieceOutside(s, r, channel, inputLength, text, cs, n);
    }
  }

  lemma TidyPieceOutside(s: Stream, r: LogRetention, channel: Channel, inputLength: nat, text: Bytes, cs: seq<DiskChunk>,
                         n: FileName)
    requires r.Valid() && Aftermath(s) && Appendable(s, text) && Tidy(s, r, channel, inputLength, text)
    requires |s.h + text| > r.rawLimitBytes && CutTail(s, r, inputLength, text) == TailStart(s.h + text, r)
    requires var e, tail := s.d + News(channel, Split(text, CHUNK_BYTES), |s.h|), CutTail(s, r, inputLength, text);
             Indexed(e) && Holding(e, cs) && n in EditedAll(e, PassEdits(cs, r, tail)) && n.ChunkFile?
             && EditedAll(e, PassEdits(cs, r, tail))[n].end <= |s.h + text|
    ensures var e, tail := s.d + News(channel, Split(text, CHUNK_BYTES), |s.h|), CutTail(s, r, inputLength, text);
            var x := EditedAll(e, PassEdits(cs, r, tail))[n];
            x.end <= HeadEnd(s.h + text, r) || x.start >= TailBegin(s.h + text, r)
  {
    var e, b, tail := s.d + News(channel, Split(text, CHUNK_BYTES), |s.h|), CleanFiles(s, channel, text), CutTail(s, r,
        inputLength, text);
    var edits := PassEdits(cs, r, tail);
    var x, h, ch := EditedAll(e, edits)[n], s.h + text, s.ch + seq(|text|, _ => channel);
    assert edits[..|edits|] == edits;
    PassIndexed(e, cs, r, tail, |edits|);
    assert Named(n, x);
    TidyIsCovered(s, r, channel, inputLength, text);
    CleanFilesWellFormed(s, channel, text);
    PieceOf(e, cs, b, r, tail, n, |h|);
    var m :| m in b && Leaves(b[m], r, tail, x);
    assert EntryOk(m, b[m], h, ch);
    LeavesOutside(b[m], x, h, ch, r);
  }

  /** Something is dropped if and only if some file is cut. */
  lemma DropsIff(d: Directory, cs: seq<DiskChunk>, r: LogRetention, tailStart: nat)
    requires Holding(d, cs)
    ensures Pass(d, cs, r, tailStart).dropped.Some? <==> SomethingCut(d, r, tailStart)
  {
    if SomethingCut(d, r, tailStart) {
      var n :| n in d && !Skips(d[n], r, tailStart);
      DropsAll(d, cs, r, tailStart, d[n]);
    }
    if Pass(d, cs, r, tailStart).dropped.Some? {
      var first, last := DroppedEnds(d, cs, r, tailStart);
      assert NameOf(first) in d;
    }
  }

  /** The old marker stays: it ends by the old cursor, or beyond the new one. */
  lemma OldMarkerFits(s: Stream, r: LogRetention, channel: Channel, inputLength: nat, text: Bytes, cs: seq<DiskChunk>)
    requires r.Valid() && Aftermath(s) && Appendable(s, text) && Tidy(s, r, channel, inputLength, text) && MarkerFile in s.d
    requires var e, tail := s.d + News(channel, Split(text, CHUNK_BYTES), |s.h|), CutTail(s, r, inputLength, text);
             Indexed(e) && Holding(e, cs) && !SomethingCut(e, r, tail)
    ensures var e, tail := s.d + News(channel, Split(text, CHUNK_BYTES), |s.h|), CutTail(s, r, inputLength, text);
            MarkerFits(EditedAll(e, PassEdits(cs, r, tail)) - {MarkerFile}, s.d[MarkerFile], s.h + text)
  {
    var e, b, tail := s.d + News(channel, Split(text, CHUNK_BYTES), |s.h|), CleanFiles(s, channel, text), CutTail(s, r,
        inputLength, text);
    var h, ch, c := s.h + text, s.ch + seq(|text|, _ => channel), s.d[MarkerFile];
    assert Named(MarkerFile, c);
    if c.end <= |h| {
      NewsOf(channel, text, |s.h|);
      CleanFilesWellFormed(s, channel, text);
      assert MarkerFile in b && b[MarkerFile] == c && EntryOk(MarkerFile, c, h, ch);
      assert LeftOf(b, r, tail, c);
      TidyIsCovered(s, r, channel, inputLength, text);
      var d := EditedAll(e, PassEdits(cs, r, tail)) - {MarkerFile};
      forall n: FileName | n in Base(d, |h|) && n.ChunkFile?
        ensures Apart(d[n], c)
      {
        OldMarkerApart(e, cs, b, r, tail, n, c, h, ch);
      }
    }
  }

  lemma OldMarkerApart(d: Directory, cs: seq<DiskChunk>, b: Directory, r: LogRetention, tailStart: nat, n: FileName,
                       c: DiskChunk,
                       h: Bytes, ch: seq<Channel>)
    requires Indexed(d) && Holding(d, cs) && WellFormed(b, h, ch) && Covered(d, b, r, tailStart, |h|)
    requires n in EditedAll(d, PassEdits(cs, r, tailStart)) && n.ChunkFile?
    requires EditedAll(d, PassEdits(cs, r, tailStart))[n].end <= |h|
    requires c.marker && LeftOf(b, r, tailStart, c)
    ensures Apart(EditedAll(d, PassEdits(cs, r, tailStart))[n], c)
  {
    var edits := PassEdits(cs, r, tailStart);
    assert edits[..|edits|] == edits;
    PassIndexed(d, cs, r, tailStart, |edits|);
    assert Named(n, EditedAll(d, edits)[n]);
    CoveredEntry(d, cs, b, r, tailStart, n, h, ch);
    PiecesApart(b, r, tailStart, EditedAll(d, edits)[n], c, h, ch);
  }

  /** A tidy append that completes leaves files of which those before the new cursor are faithful and
      disjoint, whatever failed before and however long its text is. */
  lemma TidyCompletes(s: Stream, r: LogRetention, channel: Channel, inputLength: nat, text: Bytes, cs: seq<DiskChunk>,
                      measured: seq<DiskChunk>)
    requires r.Valid() && Aftermath(s) && Appendable(s, text) && Tidy(s, r, channel, inputLength, text)
    requires Lists(Written(s.d, channel, Split(text, CHUNK_BYTES), |s.h|), cs)
    ensures Aftermath(AfterOver(s, r, channel, inputLength, text, cs, measured))
  {
    var parts, tail := Split(text, CHUNK_BYTES), CutTail(s, r, inputLength, text);
    var e, b := s.d + News(channel, parts, |s.h|), CleanFiles(s, channel, text);
    var h, ch := s.h + text, s.ch + seq(|text|, _ => channel);
    WrittenIsMerge(s.d, channel, parts, |s.h|);
    WrittenIndexed(s.d, channel, text, |s.h|);
    AfterIsCut(s, r, channel, inputLength, text, cs, measured);
    CleanFilesWellFormed(s, channel, text);
    TidyIsCovered(s, r, channel, inputLength, text);
    CoveredIsUsable(e, cs, b, r, tail, h, ch);
    FinishCut(e, cs, r, tail, h, ch) by {
      DropsIff(e, cs, r, tail);
      if SomethingCut(e, r, tail) {
        TidyMarkerFits(s, r, channel, inputLength, text, cs);
      } else if MarkerFile in e {
        NewsOf(channel, text, |s.h|);
        OldMarkerFits(s, r, channel, inputLength, text, cs);
      }
    }
  }

  lemma MarkerAgain(d: Directory, c: DiskChunk)
    ensures (d - {MarkerFile})[MarkerFile := c] == d[MarkerFile := c]
    ensures MarkerFile in d && d[MarkerFile] == c ==> (d - {MarkerFile})[MarkerFile := c] == d
    ensures MarkerFile !in d ==> d - {MarkerFile} == d
  {
  }

  lemma FinishCut(d: Directory, cs: seq<DiskChunk>, r: LogRetention, tailStart: nat, h: Bytes, ch: seq<Channel>)
    requires Usable(EditedAll(d, PassEdits(cs, r, tailStart)) - {MarkerFile}, h, ch)
    requires var p, e := Pass(d, cs, r, tailStart), EditedAll(d, PassEdits(cs, r, tailStart)) - {MarkerFile};
             if p.dropped.Some? then MarkerFits(e, Marker(p.dropped.value, p.droppedEnd), h)
             else MarkerFile in d ==> MarkerFits(e, d[MarkerFile], h)
    ensures Usable(Cut(d, cs, r, tailStart), h, ch)
  {
    var p, all := Pass(d, cs, r, tailStart), EditedAll(d, PassEdits(cs, r, tailStart));
    PassIsEdited(d, cs, r, tailStart);
    PassSparesMarker(d, cs, r, tailStart);
    if p.dropped.Some? || MarkerFile in d {
      var c := if p.dropped.Some? then Marker(p.dropped.value, p.droppedEnd) else d[MarkerFile];
      MarkerPut(all - {MarkerFile}, c, h, ch);
      MarkerAgain(all, c);
    } else {
      MarkerAgain(all, Marker(0, 0));
    }
  }
}
