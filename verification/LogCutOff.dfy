/** An append to a sound stream that is cut off: what the files hold then, and exactly when something that
    was to be kept is lost. */
module LogCutOff {
  import opened Common
  import opened Text
  import opened LogNames
  import opened LogDirectory
  import opened LogPaging
  import opened LogStore
  import opened LogEdits

  // ---- Cut off while writing ----

  ghost predicate Among(a: Directory, b: Directory) {
    forall n | n in a :: n in b && b[n] == a[n]
  }

  lemma AmongKeeps(a: Directory, b: Directory, h: Bytes, ch: seq<Channel>)
    requires Among(a, b) && WellFormed(b, h, ch)
    ensures WellFormed(a, h, ch) && forall i: nat :: Covers(a, i) ==> Covers(b, i)
  {
    forall i: nat | Covers(a, i)
      ensures Covers(b, i)
    {
      var n :| HoldsAt(a, n, i);
      assert HoldsAt(b, n, i);
    }
    assert forall n | n in a :: EntryOk(n, b[n], h, ch);
  }

  /** No chunk file ends beyond `at`. */
  ghost predicate EndsBy(d: Directory, at: nat) {
    forall n: FileName | n in d && n.ChunkFile? :: n.end <= at
  }

  lemma WellFormedEndsBy(d: Directory, h: Bytes, ch: seq<Channel>)
    requires WellFormed(d, h, ch)
    ensures EndsBy(d, |h|)
  {
    forall n: FileName | n in d && n.ChunkFile?
      ensures n.end <= |h|
    {
      assert EntryOk(n, d[n], h, ch);
    }
  }

  /** What the first `k` parts leave is among what all of them leave. */
  lemma {:induction false} WrittenGrows(d: Directory, channel: Channel, parts: seq<Bytes>, k: nat, at: nat)
    requires EndsBy(d, at) && k <= |parts| && forall p | p in parts :: |p| > 0
    ensures Among(d, Written(d, channel, parts[..k], at))
    ensures Among(Written(d, channel, parts[..k], at), Written(d, channel, parts, at))
    decreases |parts|
  {
    if |parts| > 0 {
      assert parts[0] in parts && forall p | p in parts[1..] :: p in parts;
      var end := at + |parts[0]|;
      var e := d[ChunkFile(at, end, channel) := DiskChunk(at, end, channel, parts[0], false)];
      assert Among(d, e);
      if k == 0 {
        WrittenGrows(e, channel, parts[1..], 0, end);
        assert parts[1..][..0] == [] && parts[..0] == [];
      } else {
        assert parts[..k][0] == parts[0] && parts[..k][1..] == parts[1..][..k - 1];
        WrittenGrows(e, channel, parts[1..], k - 1, end);
      }
    }
  }

  lemma {:induction false} WrittenCovers(d: Directory, channel: Channel, parts: seq<Bytes>, at: nat)
    requires EndsBy(d, at) && forall p | p in parts :: |p| > 0
    ensures forall i: nat :: Covers(Written(d, channel, parts, at), i) <==> Covers(d, i) || at <= i < at + |Flatten(parts)|
    decreases |parts|
  {
    if |parts| > 0 {
      assert parts[0] in parts && forall p | p in parts[1..] :: p in parts;
      var end := at + |parts[0]|;
      var c := DiskChunk(at, end, channel, parts[0], false);
      var e := d[ChunkFile(at, end, channel) := c];
      WrittenCovers(e, channel, parts[1..], end);
      forall i: nat
        ensures Covers(e, i) <==> Covers(d, i) || at <= i < end
      {
        PutCovers(d, c, i);
      }
    }
  }

  lemma PutCovers(d: Directory, c: DiskChunk, i: nat)
    requires NameOf(c) !in d && !c.marker
    ensures Covers(d[NameOf(c) := c], i) <==> Covers(d, i) || c.start <= i < c.end
  {
    var e := d[NameOf(c) := c];
    if Covers(d, i) {
      var n :| HoldsAt(d, n, i);
      assert HoldsAt(e, n, i);
    }
    if c.start <= i < c.end {
      assert HoldsAt(e, NameOf(c), i);
    }
    if Covers(e, i) {
      var n :| HoldsAt(e, n, i);
      assert n == NameOf(c) || HoldsAt(d, n, i);
    }
  }

  /** Cut off while writing: nothing that was on disk is changed, and what was added is the new text up
      to the last part that was written. */
  lemma WritingCutOff(d: Directory, h: Bytes, ch: seq<Channel>, channel: Channel, t: Bytes, k: nat)
    requires WellFormed(d, h, ch) && IsText(h) && IsText(t) && |h| + |t| < U64_BOUND && k <= |Split(t, CHUNK_BYTES)|
    ensures var parts := Split(t, CHUNK_BYTES);
            var e := EditedAll(d, PartEdits(channel, parts, |h|)[..k]);
            && WellFormed(e, h + t, ch + seq(|t|, _ => channel)) && Among(d, e) && Among(e, Written(d, channel, parts, |h|))
            && forall i: nat :: Covers(e, i) <==> Covers(d, i) || |h| <= i < |h| + |Flatten(parts[..k])|
  {
    var parts := Split(t, CHUNK_BYTES);
    FirstPartEdits(channel, parts, k, |h|);
    PartsWrite(d, channel, parts[..k], |h|);
    SplitLosesNothing(t, CHUNK_BYTES);
    WellFormedEndsBy(d, h, ch);
    WrittenGrows(d, channel, parts, k, |h|);
    WrittenCovers(d, channel, parts[..k], |h|);
    WrittenFromEnd(d, h, ch, channel, t);
    AmongKeeps(Written(d, channel, parts[..k], |h|), Written(d, channel, parts, |h|), h + t, ch + seq(|t|, _ => channel));
  }

  // ---- Cut off within the rewriting of one chunk ----

  /** Position `i` of chunk `c` is on disk after the first `j` of `n` operations: removing the file,
      writing its head back, writing its tail back. */
  predicate TrimLeaves(c: DiskChunk, p: nat, q: nat, n: nat, j: nat, i: nat) {
    if j == 0 then true
    else if j == n then !(c.start + p <= i < c.start + q)
    else j == 2 && i < c.start + p
  }

  lemma HeadOnly(d: Directory, c: DiskChunk, p: nat, q: nat, h: Bytes, ch: seq<Channel>)
    requires WellFormed(d, h, ch) && NameOf(c) in d && d[NameOf(c)] == c && !c.marker
    requires p < q <= |c.text| && IsBoundary(h, c.start + p) && IsBoundary(h, c.start + q)
    ensures var e := WithPart(d - {NameOf(c)}, HeadPart(c, p));
            && WellFormed(e, h, ch)
            && forall i: nat :: Covers(e, i) <==> Covers(d, i) && (Within(c, i) ==> i < c.start + p)
  {
    RemoveChunk(d, c, h, ch);
    PartsFaithful(c, p, q, h, ch);
    assert EntryOk(NameOf(c), c, h, ch);
    AddPart(d - {NameOf(c)}, HeadPart(c, p), h, ch);
    forall i: nat | c.start <= i < c.start + p
      ensures Covers(d, i)
    {
      assert HoldsAt(d, NameOf(c), i);
    }
  }

  lemma TrimCutOff(d: Directory, c: DiskChunk, p: nat, q: nat, j: nat, h: Bytes, ch: seq<Channel>)
    requires WellFormed(d, h, ch) && NameOf(c) in d && d[NameOf(c)] == c && !c.marker
    requires p < q <= |c.text| && IsBoundary(h, c.start + p) && IsBoundary(h, c.start + q)
    requires j <= |TrimEdits(c, p, q)|
    ensures var e := EditedAll(d, TrimEdits(c, p, q)[..j]);
            && WellFormed(e, h, ch)
            && forall i: nat ::
                 Covers(e, i) <==> Covers(d, i) && (Within(c, i) ==> TrimLeaves(c, p, q, |TrimEdits(c, p, q)|, j, i))
  {
    var edits, removed := TrimEdits(c, p, q), d - {NameOf(c)};
    if j == 0 {
      assert edits[..0] == [];
    } else if j == 1 {
      assert edits[..1] == [edits[0]];
      EditedOne(d, edits[0]);
      RemoveChunk(d, c, h, ch);
    } else if j == |edits| {
      assert edits[..j] == edits;
      TrimIsTrimmed(d, c, p, q);
      TrimmedKeeps(d, c, p, q, h, ch);
      TrimmedCovers(d, c, p, q, h, ch);
      assert EntryOk(NameOf(c), c, h, ch);
    } else {
      assert edits[..2] == [edits[0]] + PartPut(HeadPart(c, p));
      EditedOne(d, edits[0]);
      EditedConcat(d, [edits[0]], PartPut(HeadPart(c, p)));
      PutIsWithPart(removed, HeadPart(c, p));
      HeadOnly(d, c, p, q, h, ch);
    }
  }

  lemma CutEditsAre(c: DiskChunk, h: Bytes, r: LogRetention, p: nat, q: nat)
    requires r.Valid() && CutHere(c, h, r, p, q)
    ensures CutEdits(c, r, TailStart(h, r)) == TrimEdits(c, p, q)
  {
  }

  // ---- Cut off within a cut ----

  /** Where a cut stopped: between two files, or with `done` of the operations on one file made. */
  datatype Stop = Between | Inside(chunk: DiskChunk, done: nat)

  function StopAt(cs: seq<DiskChunk>, r: LogRetention, tailStart: nat, k: nat): Stop
    decreases |cs|
  {
    if |cs| == 0 then Between
    else
      var n, before := |cs| - 1, |PassEdits(cs[..|cs| - 1], r, tailStart)|;
      if k <= before then StopAt(cs[..n], r, tailStart, k)
      else if k - before < |CutEdits(cs[n], r, tailStart)| then Inside(cs[n], k - before)
      else Between
  }

  /** A character of the file that was being rewritten, in a part that was not written back yet. */
  ghost predicate Missing(stop: Stop, h: Bytes, r: LogRetention, i: nat) {
    stop.Inside? && Within(stop.chunk, i) && !(stop.done == 2 && r.headBytes <= |h| && i < HeadEnd(h, r))
  }

  /** Of what `e` held and the cut is to spare, exactly the missing characters are not in `d`. */
  ghost predicate LeftBy(e: Directory, d: Directory, stop: Stop, h: Bytes, ch: seq<Channel>, r: LogRetention)
    requires r.Valid()
  {
    && WellFormed(d, h, ch)
    && (forall i: nat :: Covers(d, i) ==> Covers(e, i))
    && (forall i: nat | Covers(e, i) && Spared(h, r, i) :: Covers(d, i) <==> !Missing(stop, h, r, i))
  }

  lemma StopIsInside(e: Directory, s: PassState, d: Directory, cs: seq<DiskChunk>, k: nat, h: Bytes, ch: seq<Channel>,
                     r: LogRetention, p: nat, q: nat, j: nat)
    requires r.Valid() && k < |cs| && PassCover(e, s, cs, k, h, r) && WellFormed(d, h, ch) && CutHere(cs[k], h, r, p, q)
    requires 0 < j < |TrimEdits(cs[k], p, q)|
    requires forall i: nat :: Covers(d, i) <==>
                              Covers(s.directory, i) && (Within(cs[k], i)
                                ==> TrimLeaves(cs[k], p, q, |TrimEdits(cs[k], p, q)|, j, i))
    ensures LeftBy(e, d, Inside(cs[k], j), h, ch, r)
  {
  }

  lemma StopIsBetween(e: Directory, s: PassState, cs: seq<DiskChunk>, k: nat, h: Bytes, ch: seq<Channel>, r: LogRetention)
    requires r.Valid() && k <= |cs| && PassSound(e, s, cs, k, h, ch, r)
    ensures LeftBy(e, s.directory, Between, h, ch, r)
  {
  }

  lemma StepCutOff(e: Directory, cs: seq<DiskChunk>, k: nat, j: nat, h: Bytes, ch: seq<Channel>, r: LogRetention)
    requires r.Valid() && k < |cs| && WellFormed(e, h, ch) && Listing(e, cs) && 0 < j < |CutEdits(cs[k], r, TailStart(h, r))|
    ensures var s := Pass(e, cs[..k], r, TailStart(h, r));
            LeftBy(e, EditedAll(s.directory, CutEdits(cs[k], r, TailStart(h, r))[..j]), Inside(cs[k], j), h, ch, r)
  {
    var s, c := Pass(e, cs[..k], r, TailStart(h, r)), cs[k];
    PassHolds(e, cs, k, h, ch, r);
    assert c in cs && EntryOk(NameOf(c), e[NameOf(c)], h, ch);
    var p, q := CutPoints(h, ch, r, c);
    CutEditsAre(c, h, r, p, q);
    TrimCutOff(s.directory, c, p, q, j, h, ch);
    StopIsInside(e, s, EditedAll(s.directory, CutEdits(c, r, TailStart(h, r))[..j]), cs, k, h, ch, r, p, q, j);
  }

  lemma LastPassEdits(cs: seq<DiskChunk>, k: nat, r: LogRetention, tailStart: nat)
    requires 0 < k <= |cs|
    ensures PassEdits(cs[..k], r, tailStart) == PassEdits(cs[..k - 1], r, tailStart) + CutEdits(cs[k - 1], r, tailStart)
  {
    assert cs[..k][..k - 1] == cs[..k - 1];
  }

  lemma LastStop(cs: seq<DiskChunk>, k: nat, r: LogRetention, tailStart: nat, j: nat)
    requires 0 < k <= |cs|
    ensures var before, n := |PassEdits(cs[..k - 1], r, tailStart)|, |CutEdits(cs[k - 1], r, tailStart)|;
            StopAt(cs[..k], r, tailStart, j)
            == if j <= before then StopAt(cs[..k - 1], r, tailStart, j)
               else if j - before < n then Inside(cs[k - 1], j - before)
               else Between
  {
    assert cs[..k][..k - 1] == cs[..k - 1];
  }

  lemma StepInPass(e: Directory, cs: seq<DiskChunk>, k: nat, j: nat, h: Bytes, ch: seq<Channel>, r: LogRetention)
    requires r.Valid() && 0 < k <= |cs| && WellFormed(e, h, ch) && Listing(e, cs)
    requires var before := |PassEdits(cs[..k - 1], r, TailStart(h, r))|;
             before < j < before + |CutEdits(cs[k - 1], r, TailStart(h, r))| == |PassEdits(cs[..k], r, TailStart(h, r))|
    ensures LeftBy(e, EditedAll(e, PassEdits(cs[..k], r, TailStart(h, r))[..j]), StopAt(cs[..k], r, TailStart(h, r), j),
            h, ch, r)
  {
    var tail := TailStart(h, r);
    var before, last := PassEdits(cs[..k - 1], r, tail), CutEdits(cs[k - 1], r, tail);
    LastPassEdits(cs, k, r, tail);
    LastStop(cs, k, r, tail, j);
    PrefixBeyond(e, before, last, j);
    PassIsEdited(e, cs[..k - 1], r, tail);
    StepCutOff(e, cs, k - 1, j - |before|, h, ch, r);
  }

  /** Cut off within the pass. */
  lemma {:induction false} PassCutOff(e: Directory, cs: seq<DiskChunk>, k: nat, j: nat, h: Bytes, ch: seq<Channel>,
                                      r: LogRetention)
    requires r.Valid() && k <= |cs| && WellFormed(e, h, ch) && Listing(e, cs) && j <= |PassEdits(cs[..k], r, TailStart(h, r))|
    ensures LeftBy(e, EditedAll(e, PassEdits(cs[..k], r, TailStart(h, r))[..j]), StopAt(cs[..k], r, TailStart(h, r), j),
            h, ch, r)
    decreases k
  {
    var tail := TailStart(h, r);
    if j == |PassEdits(cs[..k], r, tail)| {
      WholePass(e, cs, k, h, ch, r);
      StopBeyond(cs[..k], r, tail, j);
    } else {
      LastPassEdits(cs, k, r, tail);
      var before, last := PassEdits(cs[..k - 1], r, tail), CutEdits(cs[k - 1], r, tail);
      if j <= |before| {
        LastStop(cs, k, r, tail, j);
        PrefixWithin(before, last, j);
        PassCutOff(e, cs, k - 1, j, h, ch, r);
      } else {
        StepInPass(e, cs, k, j, h, ch, r);
      }
    }
  }

  lemma WholePass(e: Directory, cs: seq<DiskChunk>, k: nat, h: Bytes, ch: seq<Channel>, r: LogRetention)
    requires r.Valid() && k <= |cs| && WellFormed(e, h, ch) && Listing(e, cs)
    ensures var edits := PassEdits(cs[..k], r, TailStart(h, r)); LeftBy(e, EditedAll(e, edits[..|edits|]), Between, h, ch, r)
  {
    var edits := PassEdits(cs[..k], r, TailStart(h, r));
    assert edits[..|edits|] == edits;
    PassIsEdited(e, cs[..k], r, TailStart(h, r));
    PassHolds(e, cs, k, h, ch, r);
    StopIsBetween(e, Pass(e, cs[..k], r, TailStart(h, r)), cs, k, h, ch, r);
  }

  /** Cut off after the pass: the old marker may be gone and the new one not yet there. */
  lemma MarkerCutOff(e: Directory, cs: seq<DiskChunk>, j: nat, h: Bytes, ch: seq<Channel>, r: LogRetention)
    requires r.Valid() && WellFormed(e, h, ch) && Listing(e, cs)
    requires var s := Pass(e, cs, r, TailStart(h, r)); j <= |MarkerEdits(s)|
    ensures var s := Pass(e, cs, r, TailStart(h, r));
            LeftBy(e, EditedAll(s.directory, MarkerEdits(s)[..j]), Between, h, ch, r)
  {
    var s := Pass(e, cs, r, TailStart(h, r));
    var edits := MarkerEdits(s);
    PassDone(e, cs, h, ch, r);
    if j == |edits| {
      assert edits[..j] == edits;
      MarkerIsPut(s.directory, s);
      CutKeepsSpared(e, cs, h, ch, r);
    } else if j == 1 {
      assert edits[..1] == [edits[0]];
      EditedOne(s.directory, edits[0]);
      WithoutMarker(s.directory, h, ch);
    }
  }

  lemma WithoutMarker(d: Directory, h: Bytes, ch: seq<Channel>)
    requires WellFormed(d, h, ch)
    ensures WellFormed(d - {MarkerFile}, h, ch) && forall i: nat :: Covers(d - {MarkerFile}, i) <==> Covers(d, i)
  {
    var e := d - {MarkerFile};
    AmongKeeps(e, d, h, ch);
    forall i: nat | Covers(d, i)
      ensures Covers(e, i)
    {
      var n :| HoldsAt(d, n, i);
      assert EntryOk(n, d[n], h, ch);
      assert HoldsAt(e, n, i);
    }
  }

  lemma {:induction false} StopBeyond(cs: seq<DiskChunk>, r: LogRetention, tailStart: nat, k: nat)
    requires k >= |PassEdits(cs, r, tailStart)|
    ensures StopAt(cs, r, tailStart, k) == Between
    decreases |cs|
  {
    if |cs| > 0 && k <= |PassEdits(cs[..|cs| - 1], r, tailStart)| {
      StopBeyond(cs[..|cs| - 1], r, tailStart, k);
    }
  }

  lemma RetentionCutOff(e: Directory, cs: seq<DiskChunk>, j: nat, h: Bytes, ch: seq<Channel>, r: LogRetention)
    requires r.Valid() && WellFormed(e, h, ch) && Listing(e, cs) && j <= |RetentionEdits(e, cs, r, TailStart(h, r))|
    ensures LeftBy(e, EditedAll(e, RetentionEdits(e, cs, r, TailStart(h, r))[..j]), StopAt(cs, r, TailStart(h, r), j), h,
            ch, r)
  {
    var tail := TailStart(h, r);
    var pass, marker := PassEdits(cs, r, tail), MarkerEdits(Pass(e, cs, r, tail));
    assert cs[..|cs|] == cs;
    if j <= |pass| {
      PrefixWithin(pass, marker, j);
      PassCutOff(e, cs, |cs|, j, h, ch, r);
    } else {
      PrefixBeyond(e, pass, marker, j);
      PassIsEdited(e, cs, r, tail);
      MarkerCutOff(e, cs, j - |pass|, h, ch, r);
      StopBeyond(cs, r, tail, j);
    }
  }

  // ---- Cut off anywhere ----

  /** The files after the first `k` operations of an append. */
  ghost function FilesAfter(s: Stream, r: LogRetention, channel: Channel, inputLength: nat, text: Bytes, k: nat): Directory
    requires r.Valid() && Ready(s, channel, text) && k <= |AppendEdits(s, r, channel, inputLength, text)|
  {
    EditedAll(s.d, AppendEdits(s, r, channel, inputLength, text)[..k])
  }

  lemma AmongCovers(a: Directory, b: Directory)
    requires Among(a, b)
    ensures forall i: nat :: Covers(a, i) ==> Covers(b, i)
  {
    forall i: nat | Covers(a, i)
      ensures Covers(b, i)
    {
      var n :| HoldsAt(a, n, i);
      assert HoldsAt(b, n, i);
    }
  }

  ghost predicate Cuts(s: Stream, r: LogRetention, inputLength: nat) {
    s.row.totalBytes + inputLength > r.rawLimitBytes
  }

  lemma FilesWhileWriting(s: Stream, r: LogRetention, channel: Channel, inputLength: nat, text: Bytes, k: nat)
    requires r.Valid() && Ready(s, channel, text) && k <= |Split(text, CHUNK_BYTES)|
    ensures k <= |AppendEdits(s, r, channel, inputLength, text)|
    ensures FilesAfter(s, r, channel, inputLength, text, k)
         == EditedAll(s.d, PartEdits(channel, Split(text, CHUNK_BYTES), |s.h|)[..k])
  {
    var writing, edits := PartEdits(channel, Split(text, CHUNK_BYTES), |s.h|), AppendEdits(s, r, channel, inputLength, text);
    assert edits[..k] == writing[..k];
  }

  lemma FilesWhileCutting(s: Stream, r: LogRetention, channel: Channel, inputLength: nat, text: Bytes, k: nat)
    requires r.Valid() && Ready(s, channel, text)
    requires |Split(text, CHUNK_BYTES)| <= k <= |AppendEdits(s, r, channel, inputLength, text)|
    ensures var h, ch, parts := s.h + text, s.ch + seq(|text|, _ => channel), Split(text, CHUNK_BYTES);
            var e := Written(s.d, channel, parts, |s.h|);
            if Cuts(s, r, inputLength) then
              && k - |parts| <= |RetentionEdits(e, ListingOf(e, h, ch), r, TailStart(h, r))|
              && FilesAfter(s, r, channel, inputLength, text, k)
                 == EditedAll(e, RetentionEdits(e, ListingOf(e, h, ch), r, TailStart(h, r))[..k - |parts|])
            else k == |parts| && FilesAfter(s, r, channel, inputLength, text, k) == e
  {
    var h, ch, parts := s.h + text, s.ch + seq(|text|, _ => channel), Split(text, CHUNK_BYTES);
    var e, writing := Written(s.d, channel, parts, |s.h|), PartEdits(channel, parts, |s.h|);
    PartsWrite(s.d, channel, parts, |s.h|);
    if Cuts(s, r, inputLength) {
      PrefixBeyond(s.d, writing, RetentionEdits(e, ListingOf(e, h, ch), r, TailStart(h, r)), k);
    } else {
      assert AppendEdits(s, r, channel, inputLength, text) == writing && writing[..k] == writing;
    }
  }

  /** Where the append was cut off. */
  ghost function AppendStop(s: Stream, r: LogRetention, channel: Channel, inputLength: nat, text: Bytes, k: nat): Stop
    requires r.Valid() && Ready(s, channel, text)
  {
    var h, ch, parts := s.h + text, s.ch + seq(|text|, _ => channel), Split(text, CHUNK_BYTES);
    var e := Written(s.d, channel, parts, |s.h|);
    if k <= |parts| || !Cuts(s, r, inputLength) then Between else StopAt(ListingOf(e, h, ch), r, TailStart(h, r), k - |parts|)
  }

  /** Position `i` was on disk before, or the append has written it. */
  ghost predicate Held(s: Stream, channel: Channel, text: Bytes, k: nat, i: nat)
    requires IsText(text)
  {
    var parts := Split(text, CHUNK_BYTES);
    Covers(s.d, i) || |s.h| <= i < |s.h| + |Flatten(parts[..Min(k, |parts|)])|
  }

  /** Of an append to `s` that stopped after `k` operations, `d` holds faithful, disjoint pieces of the
      old text and the new and nothing else; and of what was there and is to be kept it lacks
      exactly what is missing from the file that was being rewritten. */
  ghost predicate Remains(s: Stream, r: LogRetention, channel: Channel, inputLength: nat, text: Bytes, k: nat, d: Directory)
    requires r.Valid() && Ready(s, channel, text)
  {
    var h := s.h + text;
    && WellFormed(d, h, s.ch + seq(|text|, _ => channel))
    && (forall i: nat :: Covers(d, i) ==> Held(s, channel, text, k, i))
    && (forall i: nat | Held(s, channel, text, k, i) && (Cuts(s, r, inputLength) ==> Spared(h, r, i)) ::
          Covers(d, i) <==> !Missing(AppendStop(s, r, channel, inputLength, text, k), h, r, i))
  }

  /** As long as the new text is being written, no file that was there is changed. */
  lemma CutOffWriting(s: Stream, r: LogRetention, channel: Channel, inputLength: nat, text: Bytes, k: nat)
    requires r.Valid() && SoundStream(s, r) && Ready(s, channel, text) && k <= |Split(text, CHUNK_BYTES)|
    ensures k <= |AppendEdits(s, r, channel, inputLength, text)|
    ensures var d := FilesAfter(s, r, channel, inputLength, text, k);
            && Remains(s, r, channel, inputLength, text, k, d) && Among(s.d, d)
            && forall i: nat :: Covers(d, i) <==> Held(s, channel, text, k, i)
  {
    FilesWhileWriting(s, r, channel, inputLength, text, k);
    WritingCutOff(s.d, s.h, s.ch, channel, text, k);
  }

  lemma HeldAll(s: Stream, channel: Channel, text: Bytes, k: nat, i: nat)
    requires IsText(s.h) && IsText(text) && WellFormed(s.d, s.h, s.ch) && |s.h| + |text| < U64_BOUND
             && k >= |Split(text, CHUNK_BYTES)|
    ensures Held(s, channel, text, k, i) <==> Covers(Written(s.d, channel, Split(text, CHUNK_BYTES), |s.h|), i)
  {
    var parts := Split(text, CHUNK_BYTES);
    assert parts[..Min(k, |parts|)] == parts;
    SplitLosesNothing(text, CHUNK_BYTES);
    WellFormedEndsBy(s.d, s.h, s.ch);
    WrittenCovers(s.d, channel, parts, |s.h|);
  }

  lemma CutOffCutting(s: Stream, r: LogRetention, channel: Channel, inputLength: nat, text: Bytes, k: nat)
    requires r.Valid() && SoundStream(s, r) && Ready(s, channel, text)
    requires |Split(text, CHUNK_BYTES)| < k <= |AppendEdits(s, r, channel, inputLength, text)|
    ensures Remains(s, r, channel, inputLength, text, k, FilesAfter(s, r, channel, inputLength, text, k))
  {
    var h, ch, parts := s.h + text, s.ch + seq(|text|, _ => channel), Split(text, CHUNK_BYTES);
    var e := Written(s.d, channel, parts, |s.h|);
    FilesWhileCutting(s, r, channel, inputLength, text, k);
    RetentionCutOff(e, ListingOf(e, h, ch), k - |parts|, h, ch, r);
    LeftByRemains(s, r, channel, inputLength, text, k, FilesAfter(s, r, channel, inputLength, text, k));
  }

  lemma LeftByRemains(s: Stream, r: LogRetention, channel: Channel, inputLength: nat, text: Bytes, k: nat, d: Directory)
    requires r.Valid() && SoundStream(s, r) && Ready(s, channel, text) && Cuts(s, r, inputLength)
             && k > |Split(text, CHUNK_BYTES)|
    requires LeftBy(Written(s.d, channel, Split(text, CHUNK_BYTES), |s.h|), d, AppendStop(s, r, channel, inputLength,
             text, k),
                    s.h + text, s.ch + seq(|text|, _ => channel), r)
    ensures Remains(s, r, channel, inputLength, text, k, d)
  {
    forall i: nat
      ensures Held(s, channel, text, k, i) <==> Covers(Written(s.d, channel, Split(text, CHUNK_BYTES), |s.h|), i)
    {
      HeldAll(s, channel, text, k, i);
    }
  }

  /** What survives, whichever file operation of an append was the last one. */
  lemma CutOffAnywhere(s: Stream, r: LogRetention, channel: Channel, inputLength: nat, text: Bytes, k: nat)
    requires r.Valid() && SoundStream(s, r) && Ready(s, channel, text)
    requires k <= |AppendEdits(s, r, channel, inputLength, text)|
    ensures Remains(s, r, channel, inputLength, text, k, FilesAfter(s, r, channel, inputLength, text, k))
  {
    if k <= |Split(text, CHUNK_BYTES)| {
      CutOffWriting(s, r, channel, inputLength, text, k);
    } else {
      CutOffCutting(s, r, channel, inputLength, text, k);
    }
  }

  // ---- Exactly when something is lost ----

  /** Position `i` was on disk, or written by this append, and is to be kept; and it is gone. */
  ghost predicate Lost(s: Stream, r: LogRetention, channel: Channel, inputLength: nat, text: Bytes, k: nat, i: nat)
    requires r.Valid() && Ready(s, channel, text) && k <= |AppendEdits(s, r, channel, inputLength, text)|
  {
    && Held(s, channel, text, k, i) && (Cuts(s, r, inputLength) ==> Spared(s.h + text, r, i))
    && !Covers(FilesAfter(s, r, channel, inputLength, text, k), i)
  }

  lemma {:induction false} StopIsListed(cs: seq<DiskChunk>, r: LogRetention, tailStart: nat, k: nat)
    ensures var stop := StopAt(cs, r, tailStart, k);
            stop.Inside? ==> stop.chunk in cs && 0 < stop.done < |CutEdits(stop.chunk, r, tailStart)|
    decreases |cs|
  {
    if |cs| > 0 {
      StopIsListed(cs[..|cs| - 1], r, tailStart, k);
    }
  }

  /** A file of which not all parts are written back lacks a character that is to be kept. */
  lemma InsideMisses(e: Directory, stop: Stop, h: Bytes, ch: seq<Channel>, r: LogRetention) returns (i: nat)
    requires r.Valid() && WellFormed(e, h, ch) && StopsAt(e, stop, r, TailStart(h, r))
    ensures Covers(e, i) && Spared(h, r, i) && Missing(stop, h, r, i)
  {
    var c := stop.chunk;
    assert EntryOk(NameOf(c), c, h, ch);
    var p, q := CutPoints(h, ch, r, c);
    CutEditsAre(c, h, r, p, q);
    i := if stop.done == 1 && p > 0 then c.start else c.start + q;
    assert HoldsAt(e, NameOf(c), i);
  }

  lemma StopInDirectory(e: Directory, cs: seq<DiskChunk>, r: LogRetention, tailStart: nat, k: nat)
    requires Holding(e, cs) && StopAt(cs, r, tailStart, k).Inside?
    ensures StopsAt(e, StopAt(cs, r, tailStart, k), r, tailStart)
  {
    StopIsListed(cs, r, tailStart, k);
  }

  /** The file that was being rewritten, and how far. */
  predicate StopsAt(e: Directory, stop: Stop, r: LogRetention, tailStart: nat) {
    && stop.Inside? && NameOf(stop.chunk) in e && e[NameOf(stop.chunk)] == stop.chunk
    && 0 < stop.done < |CutEdits(stop.chunk, r, tailStart)|
  }

  lemma StopFile(s: Stream, r: LogRetention, channel: Channel, inputLength: nat, text: Bytes, k: nat)
    requires r.Valid() && Ready(s, channel, text) && AppendStop(s, r, channel, inputLength, text, k).Inside?
    ensures StopsAt(Written(s.d, channel, Split(text, CHUNK_BYTES), |s.h|), AppendStop(s, r, channel, inputLength, text, k),
                    r, TailStart(s.h + text, r))
  {
    var h, ch, parts := s.h + text, s.ch + seq(|text|, _ => channel), Split(text, CHUNK_BYTES);
    var e := Written(s.d, channel, parts, |s.h|);
    StopInDirectory(e, ListingOf(e, h, ch), r, TailStart(h, r), k - |parts|);
  }

  lemma LostInside(s: Stream, r: LogRetention, channel: Channel, inputLength: nat, text: Bytes, k: nat) returns (i: nat)
    requires r.Valid() && SoundStream(s, r) && Ready(s, channel, text)
    requires k <= |AppendEdits(s, r, channel, inputLength, text)| && AppendStop(s, r, channel, inputLength, text, k).Inside?
    ensures Lost(s, r, channel, inputLength, text, k, i)
  {
    StopFile(s, r, channel, inputLength, text, k);
    i := InsideMisses(Written(s.d, channel, Split(text, CHUNK_BYTES), |s.h|), AppendStop(s, r, channel, inputLength, text, k),
                      s.h + text, s.ch + seq(|text|, _ => channel), r);
    MissingIsLost(s, r, channel, inputLength, text, k, i);
  }

  lemma MissingIsLost(s: Stream, r: LogRetention, channel: Channel, inputLength: nat, text: Bytes, k: nat, i: nat)
    requires r.Valid() && SoundStream(s, r) && Ready(s, channel, text)
    requires |Split(text, CHUNK_BYTES)| <= k <= |AppendEdits(s, r, channel, inputLength, text)|
    requires Covers(Written(s.d, channel, Split(text, CHUNK_BYTES), |s.h|), i) && Spared(s.h + text, r, i)
    requires Missing(AppendStop(s, r, channel, inputLength, text, k), s.h + text, r, i)
    ensures Lost(s, r, channel, inputLength, text, k, i)
  {
    CutOffAnywhere(s, r, channel, inputLength, text, k);
    HeldAll(s, channel, text, k, i);
  }

  lemma NothingLostBetween(s: Stream, r: LogRetention, channel: Channel, inputLength: nat, text: Bytes, k: nat, i: nat)
    requires r.Valid() && SoundStream(s, r) && Ready(s, channel, text)
    requires k <= |AppendEdits(s, r, channel, inputLength, text)| && AppendStop(s, r, channel, inputLength, text, k).Between?
    ensures !Lost(s, r, channel, inputLength, text, k, i)
  {
    CutOffAnywhere(s, r, channel, inputLength, text, k);
  }

  /** An append that is cut off loses something that it should keep if and only if it stops inside the
      rewriting of a file, with a kept part not yet written back. */
  lemma LossIff(s: Stream, r: LogRetention, channel: Channel, inputLength: nat, text: Bytes, k: nat)
    requires r.Valid() && SoundStream(s, r) && Ready(s, channel, text)
    requires k <= |AppendEdits(s, r, channel, inputLength, text)|
    ensures (exists i: nat :: Lost(s, r, channel, inputLength, text, k, i))
       <==> AppendStop(s, r, channel, inputLength, text, k).Inside?
  {
    if AppendStop(s, r, channel, inputLength, text, k).Inside? {
      var i := LostInside(s, r, channel, inputLength, text, k);
    } else {
      forall i: nat
        ensures !Lost(s, r, channel, inputLength, text, k, i)
      {
        NothingLostBetween(s, r, channel, inputLength, text, k, i);
      }
    }
  }

  lemma OneWritten(channel: Channel, text: Bytes)
    ensures Written(map[], channel, [text], 0) == map[ChunkFile(0, |text|, channel) := DiskChunk(0, |text|, channel,
            text, false)]
  {
    WrittenCons(map[], channel, text, [], 0);
    assert [text] + [] == [text];
  }

  lemma OnePass(c: DiskChunk, r: LogRetention, tailStart: nat)
    ensures PassEdits([c], r, tailStart) == CutEdits(c, r, tailStart)
    ensures |CutEdits(c, r, tailStart)| > 1 ==> StopAt([c], r, tailStart, 1) == Inside(c, 1)
  {
    assert [c][..0] == [];
    assert PassEdits([], r, tailStart) == [];
    assert [] + CutEdits(c, r, tailStart) == CutEdits(c, r, tailStart);
  }

  /** Appending "ab" to an empty stream with limit one and head zero: the file to cut. */
  lemma SmallAppend(r: LogRetention, text: Bytes)
    requires r == LogRetention(1, 0) && text == [97, 98]
    ensures Split(text, CHUNK_BYTES) == [text] && Ready(EMPTY_STREAM, Stdout, text)
    ensures 2 <= |AppendEdits(EMPTY_STREAM, r, Stdout, 2, text)|
    ensures AppendStop(EMPTY_STREAM, r, Stdout, 2, text, 2) == Inside(DiskChunk(0, 2, Stdout, text, false), 1)
  {
    EmptyIsSound(r);
    SoundIsReady(EMPTY_STREAM, r, Stdout, text);
    SmallSplit(text);
    OneWritten(Stdout, text);
    assert [] + text == text;
    var c, e, ch := DiskChunk(0, 2, Stdout, text, false), Written(map[], Stdout, [text], 0), [] + seq(2, _ => Stdout);
    ListingUnique(e, ListingOf(e, text, ch), [c]);
    SmallCut(c, r);
    OnePass(c, r, 1);
  }

  lemma SmallCut(c: DiskChunk, r: LogRetention)
    requires r == LogRetention(1, 0) && c == DiskChunk(0, 2, Stdout, [97, 98], false)
    ensures |CutEdits(c, r, 1)| == 2
  {
    assert IsBoundary(c.text, 0) && IsBoundary(c.text, 1);
    assert Floor(c.text, 0) == 0 && Ceil(c.text, 1) == 1;
  }

  /** A character that is lost: limit one, head zero, "ab", and the append stops after it has removed the
      file it was to cut to "b". */
  lemma LossExample(r: LogRetention, text: Bytes)
    requires r == LogRetention(1, 0) && text == [97, 98]
    ensures Ready(EMPTY_STREAM, Stdout, text) && 2 <= |AppendEdits(EMPTY_STREAM, r, Stdout, 2, text)|
    ensures Lost(EMPTY_STREAM, r, Stdout, 2, text, 2, 1)
  {
    EmptyIsSound(r);
    SmallAppend(r, text);
    CutOffAnywhere(EMPTY_STREAM, r, Stdout, 2, text, 2);
    OneWritten(Stdout, text);
    HeldAll(EMPTY_STREAM, Stdout, text, 2, 1);
    assert HoldsAt(Written(map[], Stdout, [text], 0), ChunkFile(0, 2, Stdout), 1);
  }

  lemma SmallSplit(text: Bytes)
    requires IsText(text) && 0 < |text| <= 3
    ensures Split(text, CHUNK_BYTES) == [text]
  {
    assert text[..|text|] == text && text[|text|..] == [];
  }
}
