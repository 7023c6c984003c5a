/** What a truncating pass makes of any files, also of ones that overlap: where each file that is there
    afterwards came from, what becomes of each file that was there before, and what is dropped. */
module LogLeftovers {
  import opened Common
  import opened Text
  import opened LogNames
  import opened LogDirectory
  import opened LogPaging
  import opened LogStore
  import opened LogEdits

  // ---- Files and the edits that put them ----

  /** A file was put, or it was there and was not removed. */
  lemma {:induction false} EditedFrom(d: Directory, edits: seq<Edit>, n: FileName)
    requires n in EditedAll(d, edits)
    ensures Put(n, EditedAll(d, edits)[n]) in edits || (n in d && d[n] == EditedAll(d, edits)[n] && Remove(n) !in edits)
    decreases |edits|
  {
    if |edits| > 0 {
      var before, e := edits[..|edits| - 1], edits[|edits| - 1];
      assert edits == before + [e];
      if n in EditedAll(d, before) && e.name != n {
        EditedFrom(d, before, n);
      }
    }
  }

  lemma {:induction false} EditedStays(d: Directory, edits: seq<Edit>, n: FileName)
    requires n in d && Remove(n) !in edits
    ensures n in EditedAll(d, edits)
    decreases |edits|
  {
    if |edits| > 0 {
      assert edits == edits[..|edits| - 1] + [edits[|edits| - 1]];
      EditedStays(d, edits[..|edits| - 1], n);
    }
  }

  lemma {:induction false} EditedPut(d: Directory, edits: seq<Edit>, n: FileName, c: DiskChunk)
    requires Put(n, c) in edits && Remove(n) !in edits
    ensures n in EditedAll(d, edits)
    decreases |edits|
  {
    var before, e := edits[..|edits| - 1], edits[|edits| - 1];
    assert edits == before + [e];
    if e != Put(n, c) {
      EditedPut(d, before, n, c);
    }
  }

  // ---- What is left of one file ----

  /** `x` is what a pass leaves of `c`, or one of the two parts that it leaves. */
  predicate Leaves(c: DiskChunk, r: LogRetention, tailStart: nat, x: DiskChunk) {
    if Skips(c, r, tailStart) then x == c
    else x.text != [] && (x == HeadPart(c, PrefixLen(c, r)) || x == TailPart(c, SuffixStart(c, r, tailStart)))
  }

  lemma CutEditsFrom(c: DiskChunk, r: LogRetention, tailStart: nat, e: Edit)
    requires e in CutEdits(c, r, tailStart)
    ensures !Skips(c, r, tailStart)
    ensures e == Remove(NameOf(c)) || (e.Put? && e.name == NameOf(e.chunk) && Leaves(c, r, tailStart, e.chunk))
  {
    CutIsTrim(c, r, tailStart);
    var p, q := PrefixLen(c, r), SuffixStart(c, r, tailStart);
    assert e == Remove(ChunkFile(c.start, c.end, c.channel)) || e in PartPut(HeadPart(c, p)) || e in PartPut(TailPart(c, q));
  }

  lemma CutEditsHold(c: DiskChunk, r: LogRetention, tailStart: nat)
    requires !Skips(c, r, tailStart)
    ensures |CutEdits(c, r, tailStart)| > 0 && CutEdits(c, r, tailStart)[0] == Remove(NameOf(c))
    ensures forall x | Leaves(c, r, tailStart, x) :: Put(NameOf(x), x) in CutEdits(c, r, tailStart)
  {
    CutIsTrim(c, r, tailStart);
    var p, q := PrefixLen(c, r), SuffixStart(c, r, tailStart);
    forall x | Leaves(c, r, tailStart, x)
      ensures Put(NameOf(x), x) in CutEdits(c, r, tailStart)
    {
      assert Put(NameOf(x), x) in PartPut(HeadPart(c, p)) || Put(NameOf(x), x) in PartPut(TailPart(c, q));
    }
  }

  /** What a pass leaves, it leaves alone. */
  lemma LeavesSkips(c: DiskChunk, r: LogRetention, tailStart: nat, x: DiskChunk)
    requires Named(NameOf(c), c) && Leaves(c, r, tailStart, x)
    ensures Skips(x, r, tailStart) && c.start <= x.start < x.end <= c.end
  {
    if !Skips(c, r, tailStart) {
      CutIsTrim(c, r, tailStart);
    }
  }

  lemma PartsApart(c: DiskChunk, r: LogRetention, tailStart: nat, x: DiskChunk, y: DiskChunk)
    requires Named(NameOf(c), c) && Leaves(c, r, tailStart, x) && Leaves(c, r, tailStart, y) && x != y
    ensures Apart(x, y)
  {
    CutIsTrim(c, r, tailStart);
  }

  /** Both cut positions of a faithful chunk are boundaries of the text. */
  lemma CutAtBoundaries(c: DiskChunk, r: LogRetention, tailStart: nat, h: Bytes, ch: seq<Channel>)
    requires Faithful(c, h, ch) && !Skips(c, r, tailStart)
    ensures c.start + PrefixLen(c, r) == Floor(h, Max(c.start, r.headBytes))
    ensures c.start + SuffixStart(c, r, tailStart) == Ceil(h, Min(c.end, tailStart))
    ensures PrefixLen(c, r) < SuffixStart(c, r, tailStart) <= |c.text|
  {
    SliceRounding(h, c.start, c.end, Max(c.start, r.headBytes));
    SliceRounding(h, c.start, c.end, Min(c.end, tailStart));
    CutIsTrim(c, r, tailStart);
  }

  lemma LeavesFaithful(c: DiskChunk, r: LogRetention, tailStart: nat, x: DiskChunk, h: Bytes, ch: seq<Channel>)
    requires Faithful(c, h, ch) && Leaves(c, r, tailStart, x)
    ensures Faithful(x, h, ch)
  {
    if !Skips(c, r, tailStart) {
      CutAtBoundaries(c, r, tailStart, h, ch);
      PartsFaithful(c, PrefixLen(c, r), SuffixStart(c, r, tailStart), h, ch);
    }
  }

  /** What is dropped of a faithful chunk lies within the cut of the text. */
  lemma CutIsInside(c: DiskChunk, h: Bytes, ch: seq<Channel>, r: LogRetention)
    requires r.Valid() && Faithful(c, h, ch) && !Skips(c, r, TailStart(h, r))
    ensures |h| > r.rawLimitBytes
    ensures HeadEnd(h, r) <= c.start + PrefixLen(c, r)
    ensures c.start + SuffixStart(c, r, TailStart(h, r)) <= TailBegin(h, r)
  {
    CutAtBoundaries(c, r, TailStart(h, r), h, ch);
  }

  /** What is left of it lies outside. */
  lemma LeavesOutside(c: DiskChunk, x: DiskChunk, h: Bytes, ch: seq<Channel>, r: LogRetention)
    requires r.Valid() && Faithful(c, h, ch) && Leaves(c, r, TailStart(h, r), x) && r.rawLimitBytes < |h| < U64_BOUND
    ensures x.end <= HeadEnd(h, r) || x.start >= TailBegin(h, r)
  {
    LeavesFaithful(c, r, TailStart(h, r), x, h, ch);
    LeavesSkips(c, r, TailStart(h, r), x);
    if x.end <= r.headBytes {
      assert Floor(h, r.headBytes) >= x.end;
    } else {
      assert Ceil(h, TailStart(h, r)) <= x.start;
    }
  }

  // ---- The edits of a pass ----

  lemma {:induction false} PassEditsFrom(cs: seq<DiskChunk>, r: LogRetention, tailStart: nat, e: Edit) returns (c: DiskChunk)
    requires e in PassEdits(cs, r, tailStart)
    ensures c in cs && !Skips(c, r, tailStart)
    ensures e == Remove(NameOf(c)) || (e.Put? && e.name == NameOf(e.chunk) && Leaves(c, r, tailStart, e.chunk))
    decreases |cs|
  {
    var before, last := cs[..|cs| - 1], cs[|cs| - 1];
    if e in PassEdits(before, r, tailStart) {
      c := PassEditsFrom(before, r, tailStart, e);
    } else {
      c := last;
      CutEditsFrom(c, r, tailStart, e);
    }
  }

  lemma {:induction false} PassEditsHold(cs: seq<DiskChunk>, r: LogRetention, tailStart: nat, c: DiskChunk, e: Edit)
    requires c in cs && e in CutEdits(c, r, tailStart)
    ensures e in PassEdits(cs, r, tailStart)
    decreases |cs|
  {
    var before, last := cs[..|cs| - 1], cs[|cs| - 1];
    assert cs == before + [last];
    if c != last {
      PassEditsHold(before, r, tailStart, c, e);
    }
  }

  /** A part is written back only after its file was removed. */
  lemma {:induction false} RemovedBefore(cs: seq<DiskChunk>, r: LogRetention, tailStart: nat, j: nat,
                                         e: Edit) returns (c: DiskChunk)
    requires j <= |PassEdits(cs, r, tailStart)| && e in PassEdits(cs, r, tailStart)[..j] && e.Put?
    ensures c in cs && !Skips(c, r, tailStart) && Leaves(c, r, tailStart, e.chunk) && e.name == NameOf(e.chunk)
    ensures Remove(NameOf(c)) in PassEdits(cs, r, tailStart)[..j]
    decreases |cs|
  {
    var before, last := PassEdits(cs[..|cs| - 1], r, tailStart), CutEdits(cs[|cs| - 1], r, tailStart);
    if j <= |before| {
      PrefixWithin(before, last, j);
      c := RemovedBefore(cs[..|cs| - 1], r, tailStart, j, e);
    } else {
      assert (before + last)[..j] == before + last[..j - |before|];
      if e in before {
        assert before[..|before|] == before;
        c := RemovedBefore(cs[..|cs| - 1], r, tailStart, |before|, e);
      } else {
        c := cs[|cs| - 1];
        CutEditsFrom(c, r, tailStart, e);
        CutEditsHold(c, r, tailStart);
        assert last[0] in last[..j - |before|];
      }
    }
  }

  // ---- Where a file came from ----

  /** `x` is the file `m`, not removed by `edits`, or a part of it, which was. */
  ghost predicate Origin(d: Directory, edits: seq<Edit>, r: LogRetention, tailStart: nat, x: DiskChunk, m: FileName) {
    && m in d
    && if Remove(m) in edits then !Skips(d[m], r, tailStart) && Leaves(d[m], r, tailStart, x) else x == d[m]
  }

  lemma PassOrigin(d: Directory, cs: seq<DiskChunk>, r: LogRetention, tailStart: nat, j: nat,
                   n: FileName) returns (m: FileName)
    requires Holding(d, cs) && j <= |PassEdits(cs, r, tailStart)| && n in EditedAll(d, PassEdits(cs, r, tailStart)[..j])
    ensures var edits := PassEdits(cs, r, tailStart)[..j]; Origin(d, edits, r, tailStart, EditedAll(d, edits)[n], m)
    ensures var x := EditedAll(d, PassEdits(cs, r, tailStart)[..j])[n]; m == n || NameOf(x) == n
  {
    var edits := PassEdits(cs, r, tailStart)[..j];
    var x := EditedAll(d, edits)[n];
    EditedFrom(d, edits, n);
    if Put(n, x) in edits {
      var c := RemovedBefore(cs, r, tailStart, j, Put(n, x));
      m := NameOf(c);
    } else {
      m := n;
    }
  }

  /** Files from different files that are apart, and different parts of one file, are apart. */
  lemma OriginsApart(d: Directory, edits: seq<Edit>, r: LogRetention, tailStart: nat,
                     x: DiskChunk, m: FileName, y: DiskChunk, n: FileName)
    requires Indexed(d) && Origin(d, edits, r, tailStart, x, m) && Origin(d, edits, r, tailStart, y, n)
    requires (m != n ==> Apart(d[m], d[n])) && x != y
    ensures Apart(x, y)
  {
    OriginWithin(d, edits, r, tailStart, x, m);
    OriginWithin(d, edits, r, tailStart, y, n);
    if m == n {
      PartsApart(d[m], r, tailStart, x, y);
    }
  }

  lemma OriginWithin(d: Directory, edits: seq<Edit>, r: LogRetention, tailStart: nat, x: DiskChunk, m: FileName)
    requires Indexed(d) && Origin(d, edits, r, tailStart, x, m)
    ensures d[m].start <= x.start < x.end <= d[m].end
  {
    assert Named(m, d[m]);
    if Remove(m) in edits {
      LeavesSkips(d[m], r, tailStart, x);
    }
  }

  /** Exactly the files that are cut are removed. */
  lemma RemovedIff(d: Directory, cs: seq<DiskChunk>, r: LogRetention, tailStart: nat, m: FileName)
    requires Indexed(d) && Holding(d, cs) && m in d
    ensures Remove(m) in PassEdits(cs, r, tailStart) <==> !Skips(d[m], r, tailStart)
  {
    assert Named(m, d[m]);
    if Remove(m) in PassEdits(cs, r, tailStart) {
      var c := PassEditsFrom(cs, r, tailStart, Remove(m));
    }
    if !Skips(d[m], r, tailStart) {
      CutEditsHold(d[m], r, tailStart);
      PassEditsHold(cs, r, tailStart, d[m], Remove(NameOf(d[m])));
    }
  }

  /** After a whole pass each file is what the pass leaves of one that was there. */
  lemma WholePassOrigin(d: Directory, cs: seq<DiskChunk>, r: LogRetention, tailStart: nat, n: FileName) returns (m: FileName)
    requires Indexed(d) && Holding(d, cs) && n in EditedAll(d, PassEdits(cs, r, tailStart))
    ensures m in d && Leaves(d[m], r, tailStart, EditedAll(d, PassEdits(cs, r, tailStart))[n])
  {
    var edits := PassEdits(cs, r, tailStart);
    assert edits[..|edits|] == edits;
    m := PassOrigin(d, cs, r, tailStart, |edits|, n);
    RemovedIff(d, cs, r, tailStart, m);
  }

  /** The name of what a pass leaves is never one that it removes. */
  lemma LeftIsNotRemoved(cs: seq<DiskChunk>, r: LogRetention, tailStart: nat, x: DiskChunk)
    requires Skips(x, r, tailStart)
    ensures Remove(NameOf(x)) !in PassEdits(cs, r, tailStart)
  {
    if Remove(NameOf(x)) in PassEdits(cs, r, tailStart) {
      var c := PassEditsFrom(cs, r, tailStart, Remove(NameOf(x)));
      assert false;
    }
  }

  /** And everything the pass leaves of a file is there, under its name. */
  lemma LeftIsThere(d: Directory, cs: seq<DiskChunk>, r: LogRetention, tailStart: nat, m: FileName, x: DiskChunk)
    requires Indexed(d) && Holding(d, cs) && m in d && Leaves(d[m], r, tailStart, x)
    ensures NameOf(x) in EditedAll(d, PassEdits(cs, r, tailStart))
  {
    var edits, c := PassEdits(cs, r, tailStart), d[m];
    assert Named(m, c);
    LeavesSkips(c, r, tailStart, x);
    LeftIsNotRemoved(cs, r, tailStart, x);
    if Skips(c, r, tailStart) {
      EditedStays(d, edits, m);
    } else {
      CutEditsHold(c, r, tailStart);
      PassEditsHold(cs, r, tailStart, c, Put(NameOf(x), x));
      EditedPut(d, edits, NameOf(x), x);
    }
  }

  lemma PassEditsSpareMarker(cs: seq<DiskChunk>, r: LogRetention, tailStart: nat)
    ensures forall e | e in PassEdits(cs, r, tailStart) :: e.name != MarkerFile
  {
    forall e | e in PassEdits(cs, r, tailStart)
      ensures e.name != MarkerFile
    {
      var c := PassEditsFrom(cs, r, tailStart, e);
    }
  }

  /** A pass neither removes nor changes the marker. */
  lemma PassSparesMarker(d: Directory, cs: seq<DiskChunk>, r: LogRetention, tailStart: nat)
    ensures var e := EditedAll(d, PassEdits(cs, r, tailStart));
            (MarkerFile in e <==> MarkerFile in d) && (MarkerFile in d ==> e[MarkerFile] == d[MarkerFile])
  {
    var edits := PassEdits(cs, r, tailStart);
    PassEditsSpareMarker(cs, r, tailStart);
    if MarkerFile in EditedAll(d, edits) {
      EditedFrom(d, edits, MarkerFile);
    }
    if MarkerFile in d {
      EditedStays(d, edits, MarkerFile);
    }
  }

  // ---- The dropped range ----

  lemma {:induction false} DropsAll(d: Directory, cs: seq<DiskChunk>, r: LogRetention, tailStart: nat, c: DiskChunk)
    requires c in cs && !Skips(c, r, tailStart)
    ensures var s := Pass(d, cs, r, tailStart);
            && s.dropped.Some? && s.dropped.value <= c.start + PrefixLen(c, r)
            && c.start + SuffixStart(c, r, tailStart) <= s.droppedEnd
    decreases |cs|
  {
    var before, last := cs[..|cs| - 1], cs[|cs| - 1];
    assert cs == before + [last];
    var s := Pass(d, before, r, tailStart);
    NotesOnlyGrow(s, last, r, tailStart);
    if c == last {
      PassOverNotes(s, last, r, tailStart);
    } else {
      DropsAll(d, before, r, tailStart, c);
    }
  }

  lemma NotesOnlyGrow(s: PassState, c: DiskChunk, r: LogRetention, tailStart: nat)
    ensures var t := PassOver(s, c, r, tailStart);
            (s.dropped.Some? ==> t.dropped.Some? && t.dropped.value <= s.dropped.value) && s.droppedEnd <= t.droppedEnd
  {
    SkipsMakeNoEdits(s, c, r, tailStart);
    if !Skips(c, r, tailStart) {
      PassOverNotes(s, c, r, tailStart);
    }
  }

  /** Both ends of the dropped range are ends of what was dropped of a file. */
  lemma {:induction false} DroppedEnds(d: Directory, cs: seq<DiskChunk>, r: LogRetention, tailStart: nat)
    returns (first: DiskChunk, last: DiskChunk)
    requires Pass(d, cs, r, tailStart).dropped.Some?
    ensures first in cs && !Skips(first, r, tailStart) && last in cs && !Skips(last, r, tailStart)
    ensures var s := Pass(d, cs, r, tailStart);
            && s.dropped.value == first.start + PrefixLen(first, r)
            && s.droppedEnd == last.start + SuffixStart(last, r, tailStart)
    decreases |cs|
  {
    var before, c := cs[..|cs| - 1], cs[|cs| - 1];
    var s := Pass(d, before, r, tailStart);
    SkipsMakeNoEdits(s, c, r, tailStart);
    first, last := c, c;
    if s.dropped.Some? {
      first, last := DroppedEnds(d, before, r, tailStart);
    } else {
      NothingDropped(d, before, r, tailStart);
    }
    if !Skips(c, r, tailStart) {
      PassOverNotes(s, c, r, tailStart);
      if s.dropped.None? || c.start + PrefixLen(c, r) < s.dropped.value {
        first := c;
      }
      if c.start + SuffixStart(c, r, tailStart) >= s.droppedEnd {
        last := c;
      }
    }
  }

  lemma {:induction false} NothingDropped(d: Directory, cs: seq<DiskChunk>, r: LogRetention, tailStart: nat)
    requires Pass(d, cs, r, tailStart).dropped.None?
    ensures Pass(d, cs, r, tailStart).droppedEnd == 0
    decreases |cs|
  {
    if |cs| > 0 {
      var s := Pass(d, cs[..|cs| - 1], r, tailStart);
      SkipsMakeNoEdits(s, cs[|cs| - 1], r, tailStart);
      if !Skips(cs[|cs| - 1], r, tailStart) {
        PassOverNotes(s, cs[|cs| - 1], r, tailStart);
      }
      NothingDropped(d, cs[..|cs| - 1], r, tailStart);
    }
  }
}
