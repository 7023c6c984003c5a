/** Appends after failed ones: exactly when one leaves no overlapping files, why trying the same append
    again always ends well, and what holds over whole runs of completed and failed appends. */
module LogRetries {
  import opened Common
  import opened Text
  import opened LogNames
  import opened LogDirectory
  import opened LogPaging
  import opened LogStore
  import opened LogEdits
  import opened LogLeftovers
  import opened LogCutOff
  import opened LogAftermath

  // ---- What a completed append leaves of any file ----

  lemma PassThenMarker(d: Directory, cs: seq<DiskChunk>, r: LogRetention, tailStart: nat)
    ensures var all, cut := EditedAll(d, PassEdits(cs, r, tailStart)), Cut(d, cs, r, tailStart);
            forall n: FileName | n.ChunkFile? :: (n in all <==> n in cut) && (n in all ==> cut[n] == all[n])
  {
    PassIsEdited(d, cs, r, tailStart);
  }

  /** For a text of any length: each chunk file there afterwards is what the cut leaves of a file that was
      there after the writes, and all that the cut leaves of such a file is there. */
  lemma WhatIsLeft(s: Stream, r: LogRetention, channel: Channel, inputLength: nat, text: Bytes, cs: seq<DiskChunk>,
                   measured: seq<DiskChunk>)
    requires r.Valid() && Aftermath(s) && Appendable(s, text)
    requires Lists(Written(s.d, channel, Split(text, CHUNK_BYTES), |s.h|), cs)
    ensures var e, d := Written(s.d, channel, Split(text, CHUNK_BYTES), |s.h|), AfterOver(s, r, channel, inputLength,
            text, cs, measured).d;
            var tail := CutTail(s, r, inputLength, text);
            && (forall n: FileName | n in d && n.ChunkFile? :: LeftOf(e, r, tail, d[n]))
            && (forall x: DiskChunk | !x.marker && LeftOf(e, r, tail, x) :: NameOf(x) in d)
  {
    var e, d := Written(s.d, channel, Split(text, CHUNK_BYTES), |s.h|), AfterOver(s, r, channel, inputLength, text, cs,
        measured).d;
    var tail := CutTail(s, r, inputLength, text);
    WrittenIndexed(s.d, channel, text, |s.h|);
    AfterIsCut(s, r, channel, inputLength, text, cs, measured);
    PassThenMarker(e, cs, r, tail);
    forall n: FileName | n in d && n.ChunkFile?
      ensures LeftOf(e, r, tail, d[n])
    {
      var m := WholePassOrigin(e, cs, r, tail, n);
    }
    forall x: DiskChunk | !x.marker && LeftOf(e, r, tail, x)
      ensures NameOf(x) in d
    {
      var m :| m in e && Leaves(e[m], r, tail, x);
      LeftIsThere(e, cs, r, tail, m, x);
    }
  }

  /** The cut removes a file without a trace if and only if all of its text is cut. */
  lemma RemovedEntirely(c: DiskChunk, r: LogRetention, tailStart: nat)
    requires Named(NameOf(c), c)
    ensures (forall x :: !Leaves(c, r, tailStart, x))
       <==> !Skips(c, r, tailStart) && PrefixLen(c, r) == 0 && SuffixStart(c, r, tailStart) == |c.text|
  {
    if Skips(c, r, tailStart) {
      assert Leaves(c, r, tailStart, c);
    } else {
      CutIsTrim(c, r, tailStart);
      assert PrefixLen(c, r) > 0 ==> Leaves(c, r, tailStart, HeadPart(c, PrefixLen(c, r)));
      assert SuffixStart(c, r, tailStart) < |c.text| ==> Leaves(c, r, tailStart, TailPart(c, SuffixStart(c, r, tailStart)));
    }
  }

  // ---- Texts that fit the tail: the exact condition ----

  lemma ShortTail(s: Stream, r: LogRetention, inputLength: nat, text: Bytes)
    requires r.Valid() && |text| <= r.TailBytes()
    ensures CutTail(s, r, inputLength, text) <= |s.h|
  {
  }

  /** A file that starts in the tail is left as it is. */
  lemma StaysInTail(s: Stream, r: LogRetention, channel: Channel, inputLength: nat, text: Bytes, cs: seq<DiskChunk>,
                    measured: seq<DiskChunk>, n: FileName)
    requires r.Valid() && Aftermath(s) && Appendable(s, text)
    requires Lists(Written(s.d, channel, Split(text, CHUNK_BYTES), |s.h|), cs)
    requires n in s.d + News(channel, Split(text, CHUNK_BYTES), |s.h|) && n.ChunkFile?
             && n.start >= CutTail(s, r, inputLength, text)
    ensures n in AfterOver(s, r, channel, inputLength, text, cs, measured).d
  {
    var e, tail := s.d + News(channel, Split(text, CHUNK_BYTES), |s.h|), CutTail(s, r, inputLength, text);
    WrittenIsMerge(s.d, channel, Split(text, CHUNK_BYTES), |s.h|);
    WrittenIndexed(s.d, channel, text, |s.h|);
    assert Named(n, e[n]) && Leaves(e[n], r, tail, e[n]) && LeftOf(e, r, tail, e[n]);
    WhatIsLeft(s, r, channel, inputLength, text, cs, measured);
  }

  lemma AfterIndexed(s: Stream, r: LogRetention, channel: Channel, inputLength: nat, text: Bytes, cs: seq<DiskChunk>,
                     measured: seq<DiskChunk>)
    requires r.Valid() && Aftermath(s) && Appendable(s, text)
    requires Lists(Written(s.d, channel, Split(text, CHUNK_BYTES), |s.h|), cs)
    ensures Indexed(AfterOver(s, r, channel, inputLength, text, cs, measured).d)
  {
    var all := EditsOver(s, r, channel, inputLength, text, cs);
    assert all[..|all|] == all;
    AppendIndexed(s, r, channel, inputLength, text, cs, |all|);
    EditsAreOver(s, r, channel, inputLength, text, cs, measured);
  }

  /** Every position of the new text is in a new file, which such an append leaves. */
  lemma NewFileStays(s: Stream, r: LogRetention, channel: Channel, inputLength: nat, text: Bytes, cs: seq<DiskChunk>,
                     measured: seq<DiskChunk>, i: nat) returns (m: FileName)
    requires r.Valid() && Aftermath(s) && Appendable(s, text) && |text| <= r.TailBytes() && |s.h| <= i < |s.h| + |text|
    requires Lists(Written(s.d, channel, Split(text, CHUNK_BYTES), |s.h|), cs)
    ensures m in News(channel, Split(text, CHUNK_BYTES), |s.h|) && m.ChunkFile? && |s.h| <= m.start <= i < m.end
    ensures m in AfterOver(s, r, channel, inputLength, text, cs, measured).d
  {
    m := NewFileAt(Base(s.d, |s.h|), s.h, s.ch, channel, text, i);
    NewsOf(channel, text, |s.h|);
    ShortTail(s, r, inputLength, text);
    StaysInTail(s, r, channel, inputLength, text, cs, measured, m);
  }

  /** Below the cursor no position is in two files. */
  lemma UsableShares(d: Directory, h: Bytes, ch: seq<Channel>, m: FileName, n: FileName, i: nat)
    requires Usable(d, h, ch) && m in d && n in d && i < |h|
    requires d[m].start <= i < d[m].end && d[n].start <= i < d[n].end
    requires (m == MarkerFile ==> d[m].end <= |h|) && (n == MarkerFile ==> d[n].end <= |h|)
    ensures m == n
  {
    assert Named(m, d[m]) && Named(n, d[n]);
    assert m in Base(d, |h|) && n in Base(d, |h|);
  }

  lemma LeftoverClashes(s: Stream, r: LogRetention, channel: Channel, inputLength: nat, text: Bytes, cs: seq<DiskChunk>,
                        measured: seq<DiskChunk>, n: FileName)
    requires r.Valid() && Aftermath(s) && Appendable(s, text) && |text| <= r.TailBytes()
    requires Lists(Written(s.d, channel, Split(text, CHUNK_BYTES), |s.h|), cs)
    requires n in s.d && n.ChunkFile? && |s.h| <= n.start < |s.h| + |text|
             && n !in News(channel, Split(text, CHUNK_BYTES), |s.h|)
    ensures !Aftermath(AfterOver(s, r, channel, inputLength, text, cs, measured))
  {
    var t := AfterOver(s, r, channel, inputLength, text, cs, measured);
    ShortTail(s, r, inputLength, text);
    StaysInTail(s, r, channel, inputLength, text, cs, measured, n);
    AfterIndexed(s, r, channel, inputLength, text, cs, measured);
    var m := NewFileStays(s, r, channel, inputLength, text, cs, measured, n.start);
    assert Named(m, t.d[m]) && Named(n, t.d[n]);
    if Aftermath(t) {
      UsableShares(t.d, t.h, t.ch, m, n, n.start);
      assert false;
    }
  }

  lemma MarkerStays(s: Stream, r: LogRetention, channel: Channel, inputLength: nat, text: Bytes, cs: seq<DiskChunk>,
                    measured: seq<DiskChunk>)
    requires r.Valid() && Aftermath(s) && Appendable(s, text) && MarkerFile in s.d
    requires Lists(Written(s.d, channel, Split(text, CHUNK_BYTES), |s.h|), cs)
    requires !SomethingCut(s.d + News(channel, Split(text, CHUNK_BYTES), |s.h|), r, CutTail(s, r, inputLength, text))
    ensures var d := AfterOver(s, r, channel, inputLength, text, cs, measured).d;
            MarkerFile in d && d[MarkerFile] == s.d[MarkerFile]
  {
    var e, tail := s.d + News(channel, Split(text, CHUNK_BYTES), |s.h|), CutTail(s, r, inputLength, text);
    WrittenIsMerge(s.d, channel, Split(text, CHUNK_BYTES), |s.h|);
    NewsOf(channel, text, |s.h|);
    AfterIsCut(s, r, channel, inputLength, text, cs, measured);
    DropsIff(e, cs, r, tail);
    PassIsEdited(e, cs, r, tail);
    PassSparesMarker(e, cs, r, tail);
  }

  lemma MarkerClashes(s: Stream, r: LogRetention, channel: Channel, inputLength: nat, text: Bytes, cs: seq<DiskChunk>,
                      measured: seq<DiskChunk>)
    requires r.Valid() && Aftermath(s) && Appendable(s, text) && |text| <= r.TailBytes()
    requires Lists(Written(s.d, channel, Split(text, CHUNK_BYTES), |s.h|), cs)
    requires MarkerFile in s.d && |s.h| < s.d[MarkerFile].end <= |s.h| + |text|
    requires !SomethingCut(s.d + News(channel, Split(text, CHUNK_BYTES), |s.h|), r, CutTail(s, r, inputLength, text))
    ensures !Aftermath(AfterOver(s, r, channel, inputLength, text, cs, measured))
  {
    var t, i := AfterOver(s, r, channel, inputLength, text, cs, measured), s.d[MarkerFile].end - 1;
    MarkerStays(s, r, channel, inputLength, text, cs, measured);
    AfterIndexed(s, r, channel, inputLength, text, cs, measured);
    var m := NewFileStays(s, r, channel, inputLength, text, cs, measured, i);
    assert Named(m, t.d[m]) && Named(MarkerFile, t.d[MarkerFile]);
    if Aftermath(t) {
      UsableShares(t.d, t.h, t.ch, m, MarkerFile, i);
      assert false;
    }
  }

  /** A completed append whose text fits the tail leaves the files before the new cursor faithful and disjoint
      if and only if it is tidy. */
  lemma TidyIff(s: Stream, r: LogRetention, channel: Channel, inputLength: nat, text: Bytes, cs: seq<DiskChunk>,
                measured: seq<DiskChunk>)
    requires r.Valid() && Aftermath(s) && Appendable(s, text) && |text| <= r.TailBytes()
    requires Lists(Written(s.d, channel, Split(text, CHUNK_BYTES), |s.h|), cs)
    ensures Aftermath(AfterOver(s, r, channel, inputLength, text, cs, measured)) <==> Tidy(s, r, channel, inputLength, text)
  {
    if Tidy(s, r, channel, inputLength, text) {
      TidyCompletes(s, r, channel, inputLength, text, cs, measured);
    } else {
      var news := News(channel, Split(text, CHUNK_BYTES), |s.h|);
      if n: FileName :| n in s.d && n.ChunkFile? && |s.h| <= n.start < |s.h + text| && n !in news {
        LeftoverClashes(s, r, channel, inputLength, text, cs, measured, n);
      } else {
        MarkerClashes(s, r, channel, inputLength, text, cs, measured);
      }
    }
  }

  // ---- No overlapping files at all ----

  /** The append overwrites every file that ends beyond its cursor, or replaces it if it is the marker. */
  ghost predicate Replaces(s: Stream, r: LogRetention, channel: Channel, inputLength: nat, text: Bytes)
    requires r.Valid() && IsText(text)
  {
    var news := News(channel, Split(text, CHUNK_BYTES), |s.h|);
    forall n | n in s.d && s.d[n].end > |s.h| ::
      n in news || (n == MarkerFile && SomethingCut(s.d + news, r, CutTail(s, r, inputLength, text)))
  }

  lemma ReplacesIsTidy(s: Stream, r: LogRetention, channel: Channel, inputLength: nat, text: Bytes)
    requires r.Valid() && Aftermath(s) && Appendable(s, text) && Replaces(s, r, channel, inputLength, text)
    ensures Tidy(s, r, channel, inputLength, text)
  {
    NewsOf(channel, text, |s.h|);
    assert forall n | n in s.d :: Named(n, s.d[n]);
  }

  /** A tidy append after whose writes nothing reaches beyond the new cursor leaves a well-formed directory. */
  lemma TidyWithin(s: Stream, r: LogRetention, channel: Channel, inputLength: nat, text: Bytes, cs: seq<DiskChunk>,
                   measured: seq<DiskChunk>)
    requires r.Valid() && Aftermath(s) && Appendable(s, text) && Tidy(s, r, channel, inputLength, text)
    requires Lists(Written(s.d, channel, Split(text, CHUNK_BYTES), |s.h|), cs)
    requires var e := s.d + News(channel, Split(text, CHUNK_BYTES), |s.h|);
             forall n | n in e && e[n].end > |s.h + text| ::
               n == MarkerFile && SomethingCut(e, r, CutTail(s, r, inputLength, text))
    ensures var t := AfterOver(s, r, channel, inputLength, text, cs, measured); WellFormed(t.d, t.h, t.ch)
  {
    var t := AfterOver(s, r, channel, inputLength, text, cs, measured);
    TidyCompletes(s, r, channel, inputLength, text, cs, measured);
    forall n | n in t.d
      ensures t.d[n].end <= |t.h|
    {
      if n == MarkerFile {
        MarkerWithin(s, r, channel, inputLength, text, cs, measured);
      } else {
        ChunkWithin(s, r, channel, inputLength, text, cs, measured, n);
      }
    }
    assert Base(t.d, |t.h|) == t.d;
  }

  lemma ChunkWithin(s: Stream, r: LogRetention, channel: Channel, inputLength: nat, text: Bytes, cs: seq<DiskChunk>,
                    measured: seq<DiskChunk>, n: FileName)
    requires r.Valid() && Aftermath(s) && Appendable(s, text)
    requires Lists(Written(s.d, channel, Split(text, CHUNK_BYTES), |s.h|), cs)
    requires var e := s.d + News(channel, Split(text, CHUNK_BYTES), |s.h|);
             forall n: FileName | n in e && n.ChunkFile? :: e[n].end <= |s.h + text|
    requires n in AfterOver(s, r, channel, inputLength, text, cs, measured).d && n.ChunkFile?
    ensures AfterOver(s, r, channel, inputLength, text, cs, measured).d[n].end <= |s.h + text|
  {
    var e, tail := s.d + News(channel, Split(text, CHUNK_BYTES), |s.h|), CutTail(s, r, inputLength, text);
    var x := AfterOver(s, r, channel, inputLength, text, cs, measured).d[n];
    WrittenIsMerge(s.d, channel, Split(text, CHUNK_BYTES), |s.h|);
    WrittenIndexed(s.d, channel, text, |s.h|);
    AfterIndexed(s, r, channel, inputLength, text, cs, measured);
    WhatIsLeft(s, r, channel, inputLength, text, cs, measured);
    var m :| m in e && Leaves(e[m], r, tail, x);
    assert Named(m, e[m]) && Named(n, x);
    LeavesSkips(e[m], r, tail, x);
  }

  lemma MarkerWithin(s: Stream, r: LogRetention, channel: Channel, inputLength: nat, text: Bytes, cs: seq<DiskChunk>,
                     measured: seq<DiskChunk>)
    requires r.Valid() && Aftermath(s) && Appendable(s, text) && Tidy(s, r, channel, inputLength, text)
    requires Lists(Written(s.d, channel, Split(text, CHUNK_BYTES), |s.h|), cs)
    requires var e := s.d + News(channel, Split(text, CHUNK_BYTES), |s.h|);
             MarkerFile in e && e[MarkerFile].end > |s.h + text| ==> SomethingCut(e, r, CutTail(s, r, inputLength, text))
    requires MarkerFile in AfterOver(s, r, channel, inputLength, text, cs, measured).d
    ensures AfterOver(s, r, channel, inputLength, text, cs, measured).d[MarkerFile].end <= |s.h + text|
  {
    var e, tail := s.d + News(channel, Split(text, CHUNK_BYTES), |s.h|), CutTail(s, r, inputLength, text);
    WrittenIsMerge(s.d, channel, Split(text, CHUNK_BYTES), |s.h|);
    WrittenIndexed(s.d, channel, text, |s.h|);
    NewsOf(channel, text, |s.h|);
    AfterIsCut(s, r, channel, inputLength, text, cs, measured);
    DropsIff(e, cs, r, tail);
    PassIsEdited(e, cs, r, tail);
    PassSparesMarker(e, cs, r, tail);
    if SomethingCut(e, r, tail) {
      TidyMarker(s, r, channel, inputLength, text, cs);
    }
  }

  lemma StrayStays(s: Stream, r: LogRetention, channel: Channel, inputLength: nat, text: Bytes, cs: seq<DiskChunk>,
                   measured: seq<DiskChunk>, n: FileName)
    requires r.Valid() && Aftermath(s) && Appendable(s, text)
    requires Lists(Written(s.d, channel, Split(text, CHUNK_BYTES), |s.h|), cs)
    requires n in s.d && n.ChunkFile? && n.start >= |s.h| + |text|
    ensures var t := AfterOver(s, r, channel, inputLength, text, cs, measured); !WellFormed(t.d, t.h, t.ch)
  {
    var t := AfterOver(s, r, channel, inputLength, text, cs, measured);
    StaysInTail(s, r, channel, inputLength, text, cs, measured, n);
    AfterIndexed(s, r, channel, inputLength, text, cs, measured);
    assert Named(n, t.d[n]) && !EntryOk(n, t.d[n], t.h, t.ch);
  }

  lemma UnreplacedClashes(s: Stream, r: LogRetention, channel: Channel, inputLength: nat, text: Bytes, cs: seq<DiskChunk>,
                          measured: seq<DiskChunk>, n: FileName)
    requires r.Valid() && Aftermath(s) && Appendable(s, text) && |text| <= r.TailBytes()
    requires Lists(Written(s.d, channel, Split(text, CHUNK_BYTES), |s.h|), cs)
    requires var news := News(channel, Split(text, CHUNK_BYTES), |s.h|);
             && n in s.d && s.d[n].end > |s.h| && n !in news
             && (n == MarkerFile ==> !SomethingCut(s.d + news, r, CutTail(s, r, inputLength, text)))
    ensures var t := AfterOver(s, r, channel, inputLength, text, cs, measured); !WellFormed(t.d, t.h, t.ch)
  {
    var t := AfterOver(s, r, channel, inputLength, text, cs, measured);
    assert Named(n, s.d[n]);
    if WellFormed(t.d, t.h, t.ch) {
      CleanIsUsable(t.d, t.h, t.ch);
      CleanFilesWellFormed(s, channel, text);
    }
    if n == MarkerFile {
      if s.d[n].end <= |s.h| + |text| {
        MarkerClashes(s, r, channel, inputLength, text, cs, measured);
      } else {
        MarkerStays(s, r, channel, inputLength, text, cs, measured);
        assert !EntryOk(n, t.d[n], t.h, t.ch);
      }
    } else if n.start < |s.h| + |text| {
      LeftoverClashes(s, r, channel, inputLength, text, cs, measured, n);
    } else {
      StrayStays(s, r, channel, inputLength, text, cs, measured, n);
    }
  }

  /** A whole append whose text fits the tail leaves files without overlaps if and only if it overwrites
      every file that ends beyond the cursor it starts at, or replaces it if it is the marker. */
  lemma WholeAppendIff(s: Stream, r: LogRetention, channel: Channel, inputLength: nat, text: Bytes, cs: seq<DiskChunk>,
                       measured: seq<DiskChunk>)
    requires r.Valid() && Aftermath(s) && Appendable(s, text) && |text| <= r.TailBytes()
    requires Lists(Written(s.d, channel, Split(text, CHUNK_BYTES), |s.h|), cs)
    ensures var t := AfterOver(s, r, channel, inputLength, text, cs, measured);
            WellFormed(t.d, t.h, t.ch) <==> Replaces(s, r, channel, inputLength, text)
  {
    var news := News(channel, Split(text, CHUNK_BYTES), |s.h|);
    if Replaces(s, r, channel, inputLength, text) {
      ReplacesIsTidy(s, r, channel, inputLength, text);
      NewsWithin(s, channel, text);
      TidyWithin(s, r, channel, inputLength, text, cs, measured);
    } else {
      var n :| n in s.d && s.d[n].end > |s.h|
               && !(n in news || (n == MarkerFile && SomethingCut(s.d + news, r, CutTail(s, r, inputLength, text))));
      UnreplacedClashes(s, r, channel, inputLength, text, cs, measured, n);
    }
  }

  lemma NewsWithin(s: Stream, channel: Channel, text: Bytes)
    requires Aftermath(s) && Appendable(s, text)
    ensures forall n | n in News(channel, Split(text, CHUNK_BYTES), |s.h|) ::
              News(channel, Split(text, CHUNK_BYTES), |s.h|)[n].end <= |s.h + text|
  {
    var news, b := News(channel, Split(text, CHUNK_BYTES), |s.h|), CleanFiles(s, channel, text);
    CleanFilesWellFormed(s, channel, text);
    NewsOf(channel, text, |s.h|);
    forall n | n in news
      ensures news[n].end <= |s.h + text|
    {
      assert n in b && b[n] == news[n];
      assert EntryOk(n, b[n], s.h + text, s.ch + seq(|text|, _ => channel));
    }
  }

  // ---- The text of a completed append ----

  /** A position that is to be kept is in what a pass leaves of its file. */
  lemma LeavesSpared(c: DiskChunk, h: Bytes, ch: seq<Channel>, r: LogRetention, i: nat) returns (x: DiskChunk)
    requires r.Valid() && Faithful(c, h, ch) && Within(c, i) && Spared(h, r, i)
    ensures Leaves(c, r, TailStart(h, r), x) && Within(x, i)
  {
    x := c;
    if !Skips(c, r, TailStart(h, r)) {
      CutAtBoundaries(c, r, TailStart(h, r), h, ch);
      x := if i < HeadEnd(h, r) then HeadPart(c, PrefixLen(c, r)) else TailPart(c, SuffixStart(c, r, TailStart(h, r)));
    }
  }

  lemma KeptPiece(s: Stream, r: LogRetention, channel: Channel, inputLength: nat, text: Bytes, i: nat) returns (x: DiskChunk)
    requires r.Valid() && Aftermath(s) && Appendable(s, text) && |s.h| <= i < |s.h + text|
    requires Cuts(s, r, inputLength) ==> Spared(s.h + text, r, i)
    ensures LeftOf(News(channel, Split(text, CHUNK_BYTES), |s.h|), r, CutTail(s, r, inputLength, text), x) && Within(x, i)
  {
    var news, h, ch := News(channel, Split(text, CHUNK_BYTES), |s.h|), s.h + text, s.ch + seq(|text|, _ => channel);
    var m := NewFileAt(Base(s.d, |s.h|), s.h, s.ch, channel, text, i);
    NewsOf(channel, text, |s.h|);
    CleanFilesWellFormed(s, channel, text);
    assert CleanFiles(s, channel, text)[m] == news[m] && EntryOk(m, news[m], h, ch);
    x := news[m];
    if Cuts(s, r, inputLength) {
      x := LeavesSpared(news[m], h, ch, r, i);
    }
  }

  lemma NewTextIsKept(s: Stream, r: LogRetention, channel: Channel, inputLength: nat, text: Bytes, cs: seq<DiskChunk>,
                      measured: seq<DiskChunk>, i: nat)
    requires r.Valid() && Aftermath(s) && Appendable(s, text) && |s.h| <= i < |s.h + text|
    requires Lists(Written(s.d, channel, Split(text, CHUNK_BYTES), |s.h|), cs)
    requires Cuts(s, r, inputLength) ==> Spared(s.h + text, r, i)
    ensures Covers(AfterOver(s, r, channel, inputLength, text, cs, measured).d, i)
  {
    var d := AfterOver(s, r, channel, inputLength, text, cs, measured).d;
    var x := KeptPiece(s, r, channel, inputLength, text, i);
    var news, tail := News(channel, Split(text, CHUNK_BYTES), |s.h|), CutTail(s, r, inputLength, text);
    WrittenIsMerge(s.d, channel, Split(text, CHUNK_BYTES), |s.h|);
    var m :| m in news && Leaves(news[m], r, tail, x);
    assert (s.d + news)[m] == news[m];
    assert LeftOf(s.d + news, r, tail, x);
    WhatIsLeft(s, r, channel, inputLength, text, cs, measured);
    AfterIndexed(s, r, channel, inputLength, text, cs, measured);
    assert Named(NameOf(x), d[NameOf(x)]);
    assert HoldsAt(d, NameOf(x), i);
  }

  lemma CutTextIsGone(s: Stream, r: LogRetention, channel: Channel, inputLength: nat, text: Bytes, cs: seq<DiskChunk>,
                      measured: seq<DiskChunk>, i: nat)
    requires r.Valid() && Aftermath(s) && Appendable(s, text) && Tidy(s, r, channel, inputLength, text)
             && |s.h| <= i < |s.h + text|
    requires Lists(Written(s.d, channel, Split(text, CHUNK_BYTES), |s.h|), cs)
    requires Cuts(s, r, inputLength) && !Spared(s.h + text, r, i)
    ensures !Covers(AfterOver(s, r, channel, inputLength, text, cs, measured).d, i)
  {
    var e, d := s.d + News(channel, Split(text, CHUNK_BYTES), |s.h|), AfterOver(s, r, channel, inputLength, text, cs,
        measured).d;
    var tail := CutTail(s, r, inputLength, text);
    WrittenIsMerge(s.d, channel, Split(text, CHUNK_BYTES), |s.h|);
    WrittenIndexed(s.d, channel, text, |s.h|);
    AfterIsCut(s, r, channel, inputLength, text, cs, measured);
    AfterIndexed(s, r, channel, inputLength, text, cs, measured);
    PassThenMarker(e, cs, r, tail);
    TidyCompletes(s, r, channel, inputLength, text, cs, measured);
    forall n
      ensures !HoldsAt(d, n, i)
    {
      if n in d && !d[n].marker && d[n].start <= i < d[n].end {
        assert Named(n, d[n]);
        TidyPieceOutside(s, r, channel, inputLength, text, cs, n);
      }
    }
  }

  /** Of the text of a tidy append exactly what its cut spares is on disk, whatever failed before. */
  lemma TidyHoldsText(s: Stream, r: LogRetention, channel: Channel, inputLength: nat, text: Bytes, cs: seq<DiskChunk>,
                      measured: seq<DiskChunk>, i: nat)
    requires r.Valid() && Aftermath(s) && Appendable(s, text) && Tidy(s, r, channel, inputLength, text)
             && |s.h| <= i < |s.h + text|
    requires Lists(Written(s.d, channel, Split(text, CHUNK_BYTES), |s.h|), cs)
    ensures Covers(AfterOver(s, r, channel, inputLength, text, cs, measured).d, i)
       <==> (Cuts(s, r, inputLength) ==> Spared(s.h + text, r, i))
  {
    if Cuts(s, r, inputLength) ==> Spared(s.h + text, r, i) {
      NewTextIsKept(s, r, channel, inputLength, text, cs, measured, i);
    } else {
      CutTextIsGone(s, r, channel, inputLength, text, cs, measured, i);
    }
  }

  // ---- The same append tried again ----

  /** The files beyond the cursor are ones that tries of this very append leave: files that it overwrites, or
      that its cut absorbs, and a marker only if it cuts a file that it writes itself. */
  ghost predicate Retriable(s: Stream, r: LogRetention, channel: Channel, inputLength: nat, text: Bytes)
    requires r.Valid() && IsText(text)
  {
    var h, tail, news := s.h + text, CutTail(s, r, inputLength, text), News(channel, Split(text, CHUNK_BYTES), |s.h|);
    && (forall n | n in s.d :: s.d[n].end <= |h|)
    && (forall n: FileName | n in s.d && n.ChunkFile? && |s.h| <= n.start && n !in news :: Absorbed(s.d[n], news, h, r, tail))
    && (MarkerFile in s.d && s.d[MarkerFile].end > |s.h| ==> SomethingCut(news, r, tail))
  }

  lemma RetriableIsTidy(s: Stream, r: LogRetention, channel: Channel, inputLength: nat, text: Bytes)
    requires r.Valid() && IsText(text) && Retriable(s, r, channel, inputLength, text)
    ensures Tidy(s, r, channel, inputLength, text)
  {
    var news, tail := News(channel, Split(text, CHUNK_BYTES), |s.h|), CutTail(s, r, inputLength, text);
    if SomethingCut(news, r, tail) {
      var n :| n in news && !Skips(news[n], r, tail);
      assert (s.d + news)[n] == news[n];
    }
  }

  lemma CleanIsRetriable(s: Stream, r: LogRetention, channel: Channel, inputLength: nat, text: Bytes)
    requires r.Valid() && IsText(s.h) && WellFormed(s.d, s.h, s.ch) && Appendable(s, text)
    ensures Aftermath(s) && Retriable(s, r, channel, inputLength, text)
  {
    CleanIsUsable(s.d, s.h, s.ch);
    assert forall n | n in s.d :: EntryOk(n, s.d[n], s.h, s.ch);
  }

  /** What a try leaves of a file beyond the cursor is absorbed by the next. */
  lemma OriginAbsorbed(s: Stream, r: LogRetention, channel: Channel, inputLength: nat, text: Bytes, edits: seq<Edit>,
                       x: DiskChunk, m: FileName)
    requires r.Valid() && Aftermath(s) && Appendable(s, text) && Retriable(s, r, channel, inputLength, text)
    requires var news := News(channel, Split(text, CHUNK_BYTES), |s.h|);
             && Origin(s.d + news, edits, r, CutTail(s, r, inputLength, text), x, m)
             && !x.marker && |s.h| <= x.start && NameOf(x) !in news && Indexed(s.d + news)
    ensures Absorbed(x, News(channel, Split(text, CHUNK_BYTES), |s.h|), s.h + text, r, CutTail(s, r, inputLength, text))
  {
    var news, tail := News(channel, Split(text, CHUNK_BYTES), |s.h|), CutTail(s, r, inputLength, text);
    var e := s.d + news;
    OriginWithin(e, edits, r, tail, x, m);
    assert Named(m, e[m]);
    if Remove(m) in edits {
      LeavesSkips(e[m], r, tail, x);
      assert m !in news ==> Absorbed(s.d[m], news, s.h + text, r, tail);
      assert LeftOf(news, r, tail, x);
    }
  }

  lemma WithinNew(s: Stream, r: LogRetention, channel: Channel, inputLength: nat, text: Bytes)
    requires r.Valid() && Aftermath(s) && Appendable(s, text) && Retriable(s, r, channel, inputLength, text)
    ensures var e := s.d + News(channel, Split(text, CHUNK_BYTES), |s.h|);
            e == Written(s.d, channel, Split(text, CHUNK_BYTES), |s.h|) && Indexed(e)
              && forall n | n in e :: e[n].end <= |s.h + text|
  {
    WrittenIsMerge(s.d, channel, Split(text, CHUNK_BYTES), |s.h|);
    WrittenIndexed(s.d, channel, text, |s.h|);
    NewsWithin(s, channel, text);
  }

  /** Chunk files after part of the pass. */
  lemma PassStaysRetriable(s: Stream, r: LogRetention, channel: Channel, inputLength: nat, text: Bytes,
                           cs: seq<DiskChunk>, j: nat,
                           n: FileName)
    requires r.Valid() && Aftermath(s) && Appendable(s, text) && Retriable(s, r, channel, inputLength, text)
    requires var e, tail := s.d + News(channel, Split(text, CHUNK_BYTES), |s.h|), CutTail(s, r, inputLength, text);
             Holding(e, cs) && j <= |PassEdits(cs, r, tail)| && n in EditedAll(e, PassEdits(cs, r, tail)[..j]) && n.ChunkFile?
    ensures var e, tail := s.d + News(channel, Split(text, CHUNK_BYTES), |s.h|), CutTail(s, r, inputLength, text);
            var x, news := EditedAll(e, PassEdits(cs, r, tail)[..j])[n], News(channel, Split(text, CHUNK_BYTES), |s.h|);
            x.end <= |s.h + text| && (|s.h| <= n.start && n !in news ==> Absorbed(x, news, s.h + text, r, tail))
  {
    var e, tail := s.d + News(channel, Split(text, CHUNK_BYTES), |s.h|), CutTail(s, r, inputLength, text);
    var edits := PassEdits(cs, r, tail)[..j];
    WithinNew(s, r, channel, inputLength, text);
    PassIndexed(e, cs, r, tail, j);
    var x := EditedAll(e, edits)[n];
    assert Named(n, x);
    var m := PassOrigin(e, cs, r, tail, j, n);
    OriginWithin(e, edits, r, tail, x, m);
    if |s.h| <= n.start && n !in News(channel, Split(text, CHUNK_BYTES), |s.h|) {
      OriginAbsorbed(s, r, channel, inputLength, text, edits, x, m);
    }
  }

  /** A dropped position of the new text is in a new file that is cut. */
  lemma NewFileIsCut(s: Stream, r: LogRetention, channel: Channel, inputLength: nat, text: Bytes, i: nat)
    requires r.Valid() && Aftermath(s) && Appendable(s, text) && |s.h| <= i < |s.h + text|
    requires CutTail(s, r, inputLength, text) == TailStart(s.h + text, r) && !Spared(s.h + text, r, i)
    ensures SomethingCut(News(channel, Split(text, CHUNK_BYTES), |s.h|), r, CutTail(s, r, inputLength, text))
  {
    var news, h, ch := News(channel, Split(text, CHUNK_BYTES), |s.h|), s.h + text, s.ch + seq(|text|, _ => channel);
    var m := NewFileAt(Base(s.d, |s.h|), s.h, s.ch, channel, text, i);
    NewsOf(channel, text, |s.h|);
    CleanFilesWellFormed(s, channel, text);
    assert CleanFiles(s, channel, text)[m] == news[m] && EntryOk(m, news[m], h, ch);
    if Skips(news[m], r, TailStart(h, r)) {
      SkippedIsSpared(news[m], h, ch, r, i);
    }
  }

  /** A marker that a try puts beyond the cursor. */
  lemma NewMarkerRetriable(s: Stream, r: LogRetention, channel: Channel, inputLength: nat, text: Bytes, cs: seq<DiskChunk>)
    requires r.Valid() && Aftermath(s) && Appendable(s, text) && Retriable(s, r, channel, inputLength, text)
    requires var e, tail := s.d + News(channel, Split(text, CHUNK_BYTES), |s.h|), CutTail(s, r, inputLength, text);
             Holding(e, cs) && Pass(e, cs, r, tail).dropped.Some?
    ensures var e, tail := s.d + News(channel, Split(text, CHUNK_BYTES), |s.h|), CutTail(s, r, inputLength, text);
            var end := Pass(e, cs, r, tail).droppedEnd;
            end <= |s.h + text| && (end > |s.h| ==> SomethingCut(News(channel, Split(text, CHUNK_BYTES), |s.h|), r, tail))
  {
    var e, tail := s.d + News(channel, Split(text, CHUNK_BYTES), |s.h|), CutTail(s, r, inputLength, text);
    WithinNew(s, r, channel, inputLength, text);
    RetriableIsTidy(s, r, channel, inputLength, text);
    TidyMarker(s, r, channel, inputLength, text, cs);
    var end := Pass(e, cs, r, tail).droppedEnd;
    if end > |s.h| {
      NewFileIsCut(s, r, channel, inputLength, text, end - 1);
    }
  }

  /** The chunk files of `d` are as tries leave them. */
  ghost predicate ChunksRetriable(s: Stream, r: LogRetention, channel: Channel, inputLength: nat, text: Bytes, d: Directory)
    requires r.Valid() && IsText(text)
  {
    var h, tail, news := s.h + text, CutTail(s, r, inputLength, text), News(channel, Split(text, CHUNK_BYTES), |s.h|);
    forall n: FileName | n in d && n.ChunkFile? ::
      d[n].end <= |h| && (|s.h| <= n.start && n !in news ==> Absorbed(d[n], news, h, r, tail))
  }

  /** So is the marker. */
  ghost predicate MarkerRetriable(s: Stream, r: LogRetention, channel: Channel, inputLength: nat, text: Bytes, c: DiskChunk)
    requires r.Valid() && IsText(text)
  {
    && c.end <= |s.h + text|
    && (c.end > |s.h| ==>
          SomethingCut(News(channel, Split(text, CHUNK_BYTES), |s.h|), r, CutTail(s, r, inputLength, text)))
  }

  lemma RetriableFrom(s: Stream, r: LogRetention, channel: Channel, inputLength: nat, text: Bytes, d: Directory)
    requires r.Valid() && IsText(text) && ChunksRetriable(s, r, channel, inputLength, text, d)
    requires MarkerFile in d ==> MarkerRetriable(s, r, channel, inputLength, text, d[MarkerFile])
    ensures Retriable(s.(d := d), r, channel, inputLength, text)
  {
  }

  lemma WholePassRetriable(s: Stream, r: LogRetention, channel: Channel, inputLength: nat, text: Bytes,
                           cs: seq<DiskChunk>, j: nat)
    requires r.Valid() && Aftermath(s) && Appendable(s, text) && Retriable(s, r, channel, inputLength, text)
    requires var e, tail := s.d + News(channel, Split(text, CHUNK_BYTES), |s.h|), CutTail(s, r, inputLength, text);
             Holding(e, cs) && j <= |PassEdits(cs, r, tail)|
    ensures var e, tail := s.d + News(channel, Split(text, CHUNK_BYTES), |s.h|), CutTail(s, r, inputLength, text);
            ChunksRetriable(s, r, channel, inputLength, text, EditedAll(e, PassEdits(cs, r, tail)[..j]))
  {
    var e, tail := s.d + News(channel, Split(text, CHUNK_BYTES), |s.h|), CutTail(s, r, inputLength, text);
    var d, news := EditedAll(e, PassEdits(cs, r, tail)[..j]), News(channel, Split(text, CHUNK_BYTES), |s.h|);
    forall n: FileName | n in d && n.ChunkFile?
      ensures d[n].end <= |s.h + text| && (|s.h| <= n.start && n !in news ==> Absorbed(d[n], news, s.h + text, r, tail))
    {
      PassStaysRetriable(s, r, channel, inputLength, text, cs, j, n);
    }
  }

  lemma NoMarkerPut(d: Directory, edits: seq<Edit>)
    requires MarkerFile in EditedAll(d, edits) && forall e | e in edits :: e.name != MarkerFile
    ensures MarkerFile in d && EditedAll(d, edits)[MarkerFile] == d[MarkerFile]
  {
    EditedFrom(d, edits, MarkerFile);
  }

  lemma OldMarkerRetriable(s: Stream, r: LogRetention, channel: Channel, inputLength: nat, text: Bytes)
    requires r.Valid() && Appendable(s, text) && Retriable(s, r, channel, inputLength, text)
    ensures var e := s.d + News(channel, Split(text, CHUNK_BYTES), |s.h|);
            MarkerFile in e ==> MarkerRetriable(s, r, channel, inputLength, text, e[MarkerFile])
  {
    NewsOf(channel, text, |s.h|);
  }

  lemma CuttingStaysRetriable(s: Stream, r: LogRetention, channel: Channel, inputLength: nat, text: Bytes,
                              cs: seq<DiskChunk>, j: nat)
    requires r.Valid() && Aftermath(s) && Appendable(s, text) && Retriable(s, r, channel, inputLength, text)
    requires var e, tail := s.d + News(channel, Split(text, CHUNK_BYTES), |s.h|), CutTail(s, r, inputLength, text);
             Holding(e, cs) && j <= |RetentionEdits(e, cs, r, tail)|
    ensures var e, tail := s.d + News(channel, Split(text, CHUNK_BYTES), |s.h|), CutTail(s, r, inputLength, text);
            Retriable(s.(d := EditedAll(e, RetentionEdits(e, cs, r, tail)[..j])), r, channel, inputLength, text)
  {
    var e, tail := s.d + News(channel, Split(text, CHUNK_BYTES), |s.h|), CutTail(s, r, inputLength, text);
    var pass, p := PassEdits(cs, r, tail), Pass(e, cs, r, tail);
    OldMarkerRetriable(s, r, channel, inputLength, text);
    PassEditsSpareMarker(cs, r, tail);
    if j <= |pass| {
      PrefixWithin(pass, MarkerEdits(p), j);
      WholePassRetriable(s, r, channel, inputLength, text, cs, j);
      if MarkerFile in EditedAll(e, pass[..j]) {
        NoMarkerPut(e, pass[..j]);
      }
      RetriableFrom(s, r, channel, inputLength, text, EditedAll(e, pass[..j]));
    } else {
      PrefixBeyond(e, pass, MarkerEdits(p), j);
      PassIsEdited(e, cs, r, tail);
      MarkingStaysRetriable(s, r, channel, inputLength, text, cs, j - |pass|);
    }
  }

  lemma PassedChunksRetriable(s: Stream, r: LogRetention, channel: Channel, inputLength: nat, text: Bytes, cs: seq<DiskChunk>)
    requires r.Valid() && Aftermath(s) && Appendable(s, text) && Retriable(s, r, channel, inputLength, text)
    requires Holding(s.d + News(channel, Split(text, CHUNK_BYTES), |s.h|), cs)
    ensures var e, tail := s.d + News(channel, Split(text, CHUNK_BYTES), |s.h|), CutTail(s, r, inputLength, text);
            ChunksRetriable(s, r, channel, inputLength, text, Pass(e, cs, r, tail).directory)
  {
    var e, tail := s.d + News(channel, Split(text, CHUNK_BYTES), |s.h|), CutTail(s, r, inputLength, text);
    var pass := PassEdits(cs, r, tail);
    assert pass[..|pass|] == pass;
    WholePassRetriable(s, r, channel, inputLength, text, cs, |pass|);
    PassIsEdited(e, cs, r, tail);
  }

  lemma MarkedRetriable(s: Stream, r: LogRetention, channel: Channel, inputLength: nat, text: Bytes, d: Directory,
                        c: DiskChunk)
    requires r.Valid() && IsText(text) && ChunksRetriable(s, r, channel, inputLength, text, d)
    ensures Retriable(s.(d := d - {MarkerFile}), r, channel, inputLength, text)
    ensures MarkerRetriable(s, r, channel, inputLength, text, c)
            ==> Retriable(s.(d := d[MarkerFile := c]), r, channel, inputLength, text)
  {
    RetriableFrom(s, r, channel, inputLength, text, d - {MarkerFile});
    if MarkerRetriable(s, r, channel, inputLength, text, c) {
      RetriableFrom(s, r, channel, inputLength, text, d[MarkerFile := c]);
    }
  }

  lemma MarkingStaysRetriable(s: Stream, r: LogRetention, channel: Channel, inputLength: nat, text: Bytes,
                              cs: seq<DiskChunk>, j: nat)
    requires r.Valid() && Aftermath(s) && Appendable(s, text) && Retriable(s, r, channel, inputLength, text)
    requires var e, tail := s.d + News(channel, Split(text, CHUNK_BYTES), |s.h|), CutTail(s, r, inputLength, text);
             Holding(e, cs) && 0 < j <= |MarkerEdits(Pass(e, cs, r, tail))|
    ensures var e, tail := s.d + News(channel, Split(text, CHUNK_BYTES), |s.h|), CutTail(s, r, inputLength, text);
            var p := Pass(e, cs, r, tail);
            Retriable(s.(d := EditedAll(p.directory, MarkerEdits(p)[..j])), r, channel, inputLength, text)
  {
    var e, tail := s.d + News(channel, Split(text, CHUNK_BYTES), |s.h|), CutTail(s, r, inputLength, text);
    var p := Pass(e, cs, r, tail);
    var marking := MarkerEdits(p);
    PassedChunksRetriable(s, r, channel, inputLength, text, cs);
    NewMarkerRetriable(s, r, channel, inputLength, text, cs);
    MarkedRetriable(s, r, channel, inputLength, text, p.directory, Marker(p.dropped.value, p.droppedEnd));
    if j == 1 {
      assert marking[..1] == [marking[0]];
      EditedOne(p.directory, marking[0]);
    } else {
      assert marking[..2] == marking;
      MarkerIsPut(p.directory, p);
    }
  }

  lemma WritingStaysRetriable(s: Stream, r: LogRetention, channel: Channel, inputLength: nat, text: Bytes, k: nat)
    requires r.Valid() && Aftermath(s) && Appendable(s, text) && Retriable(s, r, channel, inputLength, text)
    requires k <= |Split(text, CHUNK_BYTES)|
    ensures Retriable(s.(d := Written(s.d, channel, Split(text, CHUNK_BYTES)[..k], |s.h|)), r, channel, inputLength, text)
  {
    var parts := Split(text, CHUNK_BYTES);
    WrittenIsMerge(s.d, channel, parts[..k], |s.h|);
    FirstNews(channel, parts, k, |s.h|);
    NewsWithin(s, channel, text);
    SplitLosesNothing(text, CHUNK_BYTES);
    NewsAre(channel, parts[..k], |s.h|);
    NewsOf(channel, text, |s.h|);
    var d := Written(s.d, channel, parts[..k], |s.h|);
    forall n: FileName | n in d && n.ChunkFile?
      ensures d[n].end <= |s.h + text|
    {
      assert n in News(channel, parts[..k], |s.h|) ==> NameOf(d[n]) == n;
    }
    RetriableFrom(s, r, channel, inputLength, text, d);
  }

  lemma TryStaysRetriable(s: Stream, r: LogRetention, channel: Channel, inputLength: nat, text: Bytes,
                          cs: seq<DiskChunk>, k: nat)
    requires r.Valid() && Aftermath(s) && Appendable(s, text) && Retriable(s, r, channel, inputLength, text)
    requires Lists(Written(s.d, channel, Split(text, CHUNK_BYTES), |s.h|), cs)
    requires k <= |EditsOver(s, r, channel, inputLength, text, cs)|
    ensures Retriable(s.(d := FilesOver(s, r, channel, inputLength, text, cs, k)), r, channel, inputLength, text)
  {
    var parts := Split(text, CHUNK_BYTES);
    if k <= |parts| {
      FilesOverWriting(s, r, channel, inputLength, text, cs, k);
      WritingStaysRetriable(s, r, channel, inputLength, text, k);
    } else {
      CutTryStaysRetriable(s, r, channel, inputLength, text, cs, k);
    }
  }

  lemma FilesOverMerge(s: Stream, r: LogRetention, channel: Channel, inputLength: nat, text: Bytes, cs: seq<DiskChunk>,
                       k: nat)
    requires r.Valid() && Appendable(s, text)
    requires |Split(text, CHUNK_BYTES)| < k <= |EditsOver(s, r, channel, inputLength, text, cs)|
    ensures var e, tail, j := s.d + News(channel, Split(text, CHUNK_BYTES), |s.h|), CutTail(s, r, inputLength, text),
            k - |Split(text, CHUNK_BYTES)|;
            && j <= |RetentionEdits(e, cs, r, tail)|
            && FilesOver(s, r, channel, inputLength, text, cs, k) == EditedAll(e, RetentionEdits(e, cs, r, tail)[..j])
  {
    FilesOverCut(s, r, channel, inputLength, text, cs, k);
    WrittenIsMerge(s.d, channel, Split(text, CHUNK_BYTES), |s.h|);
  }

  lemma CutTryStaysRetriable(s: Stream, r: LogRetention, channel: Channel, inputLength: nat, text: Bytes,
                             cs: seq<DiskChunk>, k: nat)
    requires r.Valid() && Aftermath(s) && Appendable(s, text) && Retriable(s, r, channel, inputLength, text)
    requires Holding(Written(s.d, channel, Split(text, CHUNK_BYTES), |s.h|), cs)
    requires |Split(text, CHUNK_BYTES)| < k <= |EditsOver(s, r, channel, inputLength, text, cs)|
    ensures Retriable(s.(d := FilesOver(s, r, channel, inputLength, text, cs, k)), r, channel, inputLength, text)
  {
    FilesOverMerge(s, r, channel, inputLength, text, cs, k);
    WrittenIsMerge(s.d, channel, Split(text, CHUNK_BYTES), |s.h|);
    CuttingStaysRetriable(s, r, channel, inputLength, text, cs, k - |Split(text, CHUNK_BYTES)|);
  }

  /** One try of an append: the listing it reads if it gets that far, and after how many operations it stops. */
  datatype Try = Try(chunks: seq<DiskChunk>, stop: nat)

  ghost predicate AllTried(s: Stream, r: LogRetention, channel: Channel, inputLength: nat, text: Bytes, tries: seq<Try>)
    requires r.Valid() && IsText(text)
    decreases |tries|
  {
    |tries| > 0 ==>
      && Lists(Written(s.d, channel, Split(text, CHUNK_BYTES), |s.h|), tries[0].chunks)
      && tries[0].stop <= |EditsOver(s, r, channel, inputLength, text, tries[0].chunks)|
      && AllTried(s.(d := FilesOver(s, r, channel, inputLength, text, tries[0].chunks, tries[0].stop)), r, channel,
         inputLength, text,
                  tries[1..])
  }

  ghost function AfterTries(s: Stream, r: LogRetention, channel: Channel, inputLength: nat, text: Bytes,
                            tries: seq<Try>): Stream
    requires r.Valid() && IsText(text) && AllTried(s, r, channel, inputLength, text, tries)
    decreases |tries|
  {
    if |tries| == 0 then s
    else AfterTries(s.(d := FilesOver(s, r, channel, inputLength, text, tries[0].chunks, tries[0].stop)), r, channel,
      inputLength, text,
                    tries[1..])
  }

  lemma {:induction false} TriesStayRetriable(s: Stream, r: LogRetention, channel: Channel, inputLength: nat,
                                              text: Bytes, tries: seq<Try>)
    requires r.Valid() && Aftermath(s) && Appendable(s, text) && Retriable(s, r, channel, inputLength, text)
    requires AllTried(s, r, channel, inputLength, text, tries)
    ensures var t := AfterTries(s, r, channel, inputLength, text, tries);
            Aftermath(t) && Retriable(t, r, channel, inputLength, text) && t.(d := s.d) == s
    decreases |tries|
  {
    if |tries| > 0 {
      var t := s.(d := FilesOver(s, r, channel, inputLength, text, tries[0].chunks, tries[0].stop));
      CutOffKeeps(s, r, channel, inputLength, text, tries[0].chunks, tries[0].stop);
      TryStaysRetriable(s, r, channel, inputLength, text, tries[0].chunks, tries[0].stop);
      TriesStayRetriable(t, r, channel, inputLength, text, tries[1..]);
    }
  }

  /** However often an append was cut off, and wherever: when it is tried again and completes, no files
      overlap, all of them hold pieces of the text, and of the append's own text exactly what the cut
      spares is there. */
  lemma RetriesEndWell(s: Stream, r: LogRetention, channel: Channel, inputLength: nat, text: Bytes, tries: seq<Try>,
                       cs: seq<DiskChunk>, measured: seq<DiskChunk>)
    requires r.Valid() && IsText(s.h) && WellFormed(s.d, s.h, s.ch) && Appendable(s, text)
    requires AllTried(s, r, channel, inputLength, text, tries)
    requires Lists(Written(AfterTries(s, r, channel, inputLength, text, tries).d, channel, Split(text, CHUNK_BYTES),
             |s.h|), cs)
    ensures var t := AfterOver(AfterTries(s, r, channel, inputLength, text, tries), r, channel, inputLength, text, cs,
            measured);
            && t.h == s.h + text && WellFormed(t.d, t.h, t.ch)
            && forall i: nat | |s.h| <= i < |t.h| :: Covers(t.d, i) <==> (Cuts(s, r, inputLength) ==> Spared(t.h, r, i))
  {
    CleanIsRetriable(s, r, channel, inputLength, text);
    TriesStayRetriable(s, r, channel, inputLength, text, tries);
    var t := AfterTries(s, r, channel, inputLength, text, tries);
    RetriableIsTidy(t, r, channel, inputLength, text);
    WithinNew(t, r, channel, inputLength, text);
    TidyWithin(t, r, channel, inputLength, text, cs, measured);
    forall i: nat | |s.h| <= i < |s.h + text|
      ensures Covers(AfterOver(t, r, channel, inputLength, text, cs, measured).d, i)
              <==> (Cuts(t, r, inputLength) ==> Spared(s.h + text, r, i))
    {
      TidyHoldsText(t, r, channel, inputLength, text, cs, measured, i);
    }
  }

  lemma AbsorbedInTail(c: DiskChunk, news: Directory, h: Bytes, r: LogRetention, tailStart: nat)
    requires r.Valid() && c.start >= tailStart && Absorbed(c, news, h, r, tailStart)
    requires forall n | n in news :: n == NameOf(news[n]) && Skips(news[n], r, tailStart)
    ensures NameOf(c) in news
  {
    assert Leaves(c, r, tailStart, c);
    var m :| m in news && Leaves(news[m], r, tailStart, c);
  }

  lemma RetriableOverwrites(s: Stream, r: LogRetention, channel: Channel, inputLength: nat, text: Bytes)
    requires r.Valid() && Aftermath(s) && Appendable(s, text) && Retriable(s, r, channel, inputLength, text)
             && |text| <= r.TailBytes()
    ensures Overwrites(s.d, |s.h|, channel, text)
  {
    var news, tail := News(channel, Split(text, CHUNK_BYTES), |s.h|), CutTail(s, r, inputLength, text);
    ShortTail(s, r, inputLength, text);
    NewsOf(channel, text, |s.h|);
    assert forall n | n in news :: Skips(news[n], r, tail);
    forall n | n in s.d && s.d[n].end > |s.h|
      ensures n in news
    {
      assert Named(n, s.d[n]);
      if n.ChunkFile? && n !in news {
        AbsorbedInTail(s.d[n], news, s.h + text, r, tail);
      }
    }
  }

  /** Such a text that fits the tail does not even overlap anything while it is being cut. */
  lemma RetryNeverOverlaps(s: Stream, r: LogRetention, channel: Channel, inputLength: nat, text: Bytes, tries: seq<Try>)
    requires r.Valid() && IsText(s.h) && WellFormed(s.d, s.h, s.ch) && Appendable(s, text) && |text| <= r.TailBytes()
    requires AllTried(s, r, channel, inputLength, text, tries)
    ensures Ready(AfterTries(s, r, channel, inputLength, text, tries), channel, text)
  {
    CleanIsRetriable(s, r, channel, inputLength, text);
    TriesStayRetriable(s, r, channel, inputLength, text, tries);
    var t := AfterTries(s, r, channel, inputLength, text, tries);
    RetriableOverwrites(t, r, channel, inputLength, text);
    NextAppendIff(t, channel, text);
  }

  // ---- Runs in which appends fail ----

  /** One append: the listings it reads, and the number of file operations after which it was cut off, if it was. */
  datatype Attempt = Attempt(channel: Channel, inputLength: nat, text: Bytes, chunks: seq<DiskChunk>,
    measured: seq<DiskChunk>,
                             stop: Option<nat>)

  /** An append may be cut off anywhere, over any files; one that completes is tidy. */
  ghost predicate Possible(s: Stream, r: LogRetention, a: Attempt)
    requires r.Valid()
  {
    && Appendable(s, a.text)
    && Lists(Written(s.d, a.channel, Split(a.text, CHUNK_BYTES), |s.h|), a.chunks)
    && match a.stop {
      case Some(k) => k <= |EditsOver(s, r, a.channel, a.inputLength, a.text, a.chunks)|
      case None => Tidy(s, r, a.channel, a.inputLength, a.text)
    }
  }

  ghost function Tried(s: Stream, r: LogRetention, a: Attempt): Stream
    requires r.Valid() && Possible(s, r, a)
  {
    match a.stop
    case Some(k) => s.(d := FilesOver(s, r, a.channel, a.inputLength, a.text, a.chunks, k))
    case None => AfterOver(s, r, a.channel, a.inputLength, a.text, a.chunks, a.measured)
  }

  ghost predicate AllPossible(s: Stream, r: LogRetention, attempts: seq<Attempt>)
    requires r.Valid()
    decreases |attempts|
  {
    |attempts| > 0 ==> Possible(s, r, attempts[0]) && AllPossible(Tried(s, r, attempts[0]), r, attempts[1..])
  }

  ghost function AfterAttempts(s: Stream, r: LogRetention, attempts: seq<Attempt>): Stream
    requires r.Valid() && AllPossible(s, r, attempts)
    decreases |attempts|
  {
    if |attempts| == 0 then s else AfterAttempts(Tried(s, r, attempts[0]), r, attempts[1..])
  }

  function CompletedText(attempts: seq<Attempt>): Bytes
    decreases |attempts|
  {
    if |attempts| == 0 then [] else (if attempts[0].stop.None? then attempts[0].text else []) + CompletedText(attempts[1..])
  }

  lemma TriedKeeps(s: Stream, r: LogRetention, a: Attempt)
    requires r.Valid() && Aftermath(s) && Possible(s, r, a)
    ensures Aftermath(Tried(s, r, a)) && Tried(s, r, a).h == s.h + (if a.stop.None? then a.text else [])
  {
    if a.stop.Some? {
      CutOffKeeps(s, r, a.channel, a.inputLength, a.text, a.chunks, a.stop.value);
      assert s.h + [] == s.h;
    } else {
      TidyCompletes(s, r, a.channel, a.inputLength, a.text, a.chunks, a.measured);
    }
  }

  lemma Regroup(a: Bytes, b: Bytes, c: Bytes)
    ensures (a + b) + c == a + (b + c)
  {
  }

  /** Over any run of appends, cut off anywhere or completed tidily: the history is the text of the completed
      ones, and the files that end by the next cursor hold disjoint pieces of it. */
  lemma {:induction false} FailuresKeep(s: Stream, r: LogRetention, attempts: seq<Attempt>)
    requires r.Valid() && Aftermath(s) && AllPossible(s, r, attempts)
    ensures Aftermath(AfterAttempts(s, r, attempts)) && AfterAttempts(s, r, attempts).h == s.h + CompletedText(attempts)
    decreases |attempts|
  {
    if |attempts| == 0 {
      assert s.h + [] == s.h;
    } else {
      var a := attempts[0];
      TriedKeeps(s, r, a);
      FailuresKeep(Tried(s, r, a), r, attempts[1..]);
      Regroup(s.h, if a.stop.None? then a.text else [], CompletedText(attempts[1..]));
    }
  }

  // ---- Examples ----

  lemma OneNews(channel: Channel, text: Bytes)
    requires IsText(text) && 0 < |text| <= 3
    ensures Split(text, CHUNK_BYTES) == [text]
    ensures News(channel, Split(text, CHUNK_BYTES), 0)
         == map[ChunkFile(0, |text|, channel) := DiskChunk(0, |text|, channel, text, false)]
  {
    SmallSplit(text);
    OneWritten(channel, text);
  }

  /** The row update of an append of "ab" fails, below the limit: the file stays, and "abc" is appended next.
      The files overlap for good. */
  lemma OverlapExample(r: LogRetention, one: Bytes, other: Bytes, cs: seq<DiskChunk>, measured: seq<DiskChunk>)
    requires r == LogRetention(100, 10) && one == [97, 98] && other == [97, 98, 99]
    ensures Ready(EMPTY_STREAM, Stdout, one) && |AppendEdits(EMPTY_STREAM, r, Stdout, 2, one)| == 1
    ensures var failed := EMPTY_STREAM.(d := FilesAfter(EMPTY_STREAM, r, Stdout, 2, one, 1));
            && !Ready(failed, Stdout, other)
            && var t := AfterOver(failed, r, Stdout, 3, other, cs, measured); !WellFormed(t.d, t.h, t.ch)
  {
    EmptyIsSound(r);
    SoundIsReady(EMPTY_STREAM, r, Stdout, one);
    OneNews(Stdout, one);
    OneNews(Stdout, other);
    FilesWhileWriting(EMPTY_STREAM, r, Stdout, 2, one, 1);
    PartsWrite(map[], Stdout, [one], 0);
    var d := FilesAfter(EMPTY_STREAM, r, Stdout, 2, one, 1);
    assert PartEdits(Stdout, [one], 0)[..1] == PartEdits(Stdout, [one], 0);
    assert d[ChunkFile(0, 2, Stdout)].end > 0;
    CutOffWriting(EMPTY_STREAM, r, Stdout, 2, one, 1);
    BaseIsWellFormed(d, [], [], one, seq(2, _ => Stdout));
    assert [] + one == one && [] + seq(2, _ => Stdout) == seq(2, _ => Stdout);
    NextAppendIff(EMPTY_STREAM.(d := d), Stdout, other);
  }

  /** What the append of "ab" leaves with limit one and head zero when only its row update fails: the kept
      "b", and a marker for the "a". */
  const LEFT_OF_AB: Directory :=
    map[ChunkFile(1, 2, Stdout) := DiskChunk(1, 2, Stdout, [98], false), MarkerFile := Marker(0, 1)]

  lemma SmallTrim(c: DiskChunk, e: Directory)
    requires c == DiskChunk(0, 2, Stdout, [97, 98], false) && e == map[ChunkFile(0, 2, Stdout) := c]
    ensures Trimmed(e, c, 0, 1) == map[ChunkFile(1, 2, Stdout) := DiskChunk(1, 2, Stdout, [98], false)]
  {
    assert HeadPart(c, 0).text == [] && TailPart(c, 1) == DiskChunk(1, 2, Stdout, [98], false);
    assert e - {ChunkFile(0, 2, Stdout)} == map[];
  }

  lemma SmallPass(c: DiskChunk, e: Directory, r: LogRetention)
    requires r == LogRetention(1, 0) && c == DiskChunk(0, 2, Stdout, [97, 98], false)
    ensures Pass(e, [c], r, 1) == PassState(Trimmed(e, c, 0, 1), Some(0), 1)
  {
    assert IsBoundary(c.text, 0) && IsBoundary(c.text, 1);
    assert PrefixLen(c, r) == 0 && SuffixStart(c, r, 1) == 1;
    PassOverCuts(PassState(e, None, 0), c, r, 1, 0, 1);
    assert [c][..0] == [];
  }

  lemma SmallAppendCut(c: DiskChunk, e: Directory, r: LogRetention)
    requires r == LogRetention(1, 0) && c == DiskChunk(0, 2, Stdout, [97, 98], false)
             && e == map[ChunkFile(0, 2, Stdout) := c]
    ensures Cut(e, [c], r, 1) == LEFT_OF_AB
  {
    SmallPass(c, e, r);
    SmallTrim(c, e);
  }

  lemma AbListing(one: Bytes, e: Directory, ch: seq<Channel>)
    requires one == [97, 98] && ch == [Stdout, Stdout]
             && e == map[ChunkFile(0, 2, Stdout) := DiskChunk(0, 2, Stdout, one, false)]
    requires WellFormed(e, one, ch)
    ensures ListingOf(e, one, ch) == [DiskChunk(0, 2, Stdout, one, false)]
  {
    ListingUnique(e, ListingOf(e, one, ch), [DiskChunk(0, 2, Stdout, one, false)]);
  }

  lemma AbLeft(r: LogRetention, one: Bytes)
    requires r == LogRetention(1, 0) && one == [97, 98]
    ensures Ready(EMPTY_STREAM, Stdout, one)
    ensures var k := |AppendEdits(EMPTY_STREAM, r, Stdout, 2, one)|;
            FilesAfter(EMPTY_STREAM, r, Stdout, 2, one, k) == LEFT_OF_AB
  {
    SmallAppend(r, one);
    EditsAreTheAppend(EMPTY_STREAM, r, Stdout, 2, one);
    var edits := AppendEdits(EMPTY_STREAM, r, Stdout, 2, one);
    assert edits[..|edits|] == edits;
    AbAppended(r, one);
  }

  lemma AbAppended(r: LogRetention, one: Bytes)
    requires r == LogRetention(1, 0) && one == [97, 98] && Ready(EMPTY_STREAM, Stdout, one)
    ensures AfterAppend(EMPTY_STREAM, r, Stdout, 2, one).d == LEFT_OF_AB
  {
    SmallSplit(one);
    OneWritten(Stdout, one);
    assert [] + one == one && [] + seq(2, _ => Stdout) == [Stdout, Stdout];
    var e := Written(map[], Stdout, [one], 0);
    AbListing(one, e, [Stdout, Stdout]);
    SmallAppendCut(DiskChunk(0, 2, Stdout, one, false), e, r);
  }

  const AFTER_AB: Stream := EMPTY_STREAM.(d := LEFT_OF_AB)

  lemma AfterAbIsAftermath()
    ensures Aftermath(AFTER_AB)
  {
    assert Base(LEFT_OF_AB, 0) == map[];
  }

  /** After the writes the next append's file overlaps "b". */
  lemma AbOverlaps(text: Bytes)
    requires IsText(text) && 2 <= |text| <= 3
    ensures !Ready(AFTER_AB, Stdout, text)
  {
    AfterAbIsAftermath();
    OneNews(Stdout, text);
    NextAppendIff(AFTER_AB, Stdout, text);
    assert LEFT_OF_AB[ChunkFile(1, 2, Stdout)].end > 0;
  }

  lemma AbIsAbsorbed(r: LogRetention, other: Bytes)
    requires r == LogRetention(1, 0) && other == [97, 98, 99]
    ensures CutTail(AFTER_AB, r, 3, other) == 2
    ensures Absorbed(LEFT_OF_AB[ChunkFile(1, 2, Stdout)], News(Stdout, Split(other, CHUNK_BYTES), 0), other, r, 2)
  {
    var c := LEFT_OF_AB[ChunkFile(1, 2, Stdout)];
    assert AFTER_AB.h + other == other;
    assert !Skips(c, r, 2) && PrefixLen(c, r) == 0 && SuffixStart(c, r, 2) == 1;
    assert HeadPart(c, 0).text == [] && TailPart(c, 1).text == [];
    assert IsBoundary(other, 0) && HeadEnd(other, r) == 0;
  }

  lemma AbcIsTidy(r: LogRetention, other: Bytes)
    requires r == LogRetention(1, 0) && other == [97, 98, 99]
    ensures Tidy(AFTER_AB, r, Stdout, 3, other)
    ensures SomethingCut(LEFT_OF_AB + News(Stdout, Split(other, CHUNK_BYTES), 0), r, CutTail(AFTER_AB, r, 3, other))
  {
    AbIsAbsorbed(r, other);
    OneNews(Stdout, other);
    assert AFTER_AB.h + other == other;
    var e := LEFT_OF_AB + News(Stdout, Split(other, CHUNK_BYTES), 0);
    assert !Skips(e[ChunkFile(0, 3, Stdout)], r, 2);
  }

  lemma AbcWithin(other: Bytes)
    requires other == [97, 98, 99]
    ensures var e := LEFT_OF_AB + News(Stdout, Split(other, CHUNK_BYTES), 0); forall n | n in e :: e[n].end <= 3
  {
    OneNews(Stdout, other);
  }

  lemma AbcEndsWell(r: LogRetention, other: Bytes, cs: seq<DiskChunk>, measured: seq<DiskChunk>)
    requires r == LogRetention(1, 0) && other == [97, 98, 99]
    requires Lists(Written(LEFT_OF_AB, Stdout, Split(other, CHUNK_BYTES), 0), cs)
    ensures var t := AfterOver(AFTER_AB, r, Stdout, 3, other, cs, measured); t.h == other && WellFormed(t.d, t.h, t.ch)
  {
    AfterAbIsAftermath();
    AbcIsTidy(r, other);
    AbcWithin(other);
    assert AFTER_AB.h + other == other;
    TidyWithin(AFTER_AB, r, Stdout, 3, other, cs, measured);
  }

  /** Then "ab" again or "abc" overlaps that "b" after the writes; but the cut of "abc" absorbs it, and the
      files that the append leaves do not overlap. */
  lemma MendingExample(r: LogRetention, one: Bytes, other: Bytes, cs: seq<DiskChunk>, measured: seq<DiskChunk>)
    requires r == LogRetention(1, 0) && one == [97, 98] && other == [97, 98, 99]
    requires Lists(Written(LEFT_OF_AB, Stdout, Split(other, CHUNK_BYTES), 0), cs)
    ensures Ready(EMPTY_STREAM, Stdout, one)
    ensures var k := |AppendEdits(EMPTY_STREAM, r, Stdout, 2, one)|;
            FilesAfter(EMPTY_STREAM, r, Stdout, 2, one, k) == AFTER_AB.d
    ensures !Ready(AFTER_AB, Stdout, one) && !Ready(AFTER_AB, Stdout, other)
    ensures var t := AfterOver(AFTER_AB, r, Stdout, 3, other, cs, measured); t.h == other && WellFormed(t.d, t.h, t.ch)
  {
    AbLeft(r, one);
    AbOverlaps(one);
    AbOverlaps(other);
    AbcEndsWell(r, other, cs, measured);
  }
}
