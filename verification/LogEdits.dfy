/** An append as the sequence of file operations it makes, each of which may be the last one before an
    error or a crash; also over files that overlap, as failed appends may leave them. */
module LogEdits {
  import opened Common
  import opened Text
  import opened LogNames
  import opened LogDirectory
  import opened LogPaging
  import opened LogStore

  /** Putting a file in place replaces one of the same name; removing a missing file does nothing. */
  datatype Edit = Put(name: FileName, chunk: DiskChunk) | Remove(name: FileName)

  function Edited(d: Directory, e: Edit): Directory {
    match e
    case Put(name, chunk) => d[name := chunk]
    case Remove(name) => d - {name}
  }

  function EditedAll(d: Directory, edits: seq<Edit>): Directory
    decreases |edits|
  {
    if |edits| == 0 then d else Edited(EditedAll(d, edits[..|edits| - 1]), edits[|edits| - 1])
  }

  lemma {:induction false} EditedConcat(d: Directory, a: seq<Edit>, b: seq<Edit>)
    ensures EditedAll(d, a + b) == EditedAll(EditedAll(d, a), b)
    decreases |b|
  {
    if |b| == 0 {
      assert a + b == a;
    } else {
      var n := |b| - 1;
      EditedConcat(d, a, b[..n]);
      assert (a + b)[..|a| + n] == a + b[..n];
    }
  }

  lemma EditedOne(d: Directory, e: Edit)
    ensures EditedAll(d, [e]) == Edited(d, e)
  {
    assert [e][..0] == [];
  }

  lemma PrefixWithin(a: seq<Edit>, b: seq<Edit>, j: nat)
    requires j <= |a|
    ensures (a + b)[..j] == a[..j]
  {
  }

  lemma PrefixBeyond(d: Directory, a: seq<Edit>, b: seq<Edit>, j: nat)
    requires |a| <= j <= |a + b|
    ensures EditedAll(d, (a + b)[..j]) == EditedAll(EditedAll(d, a), b[..j - |a|])
  {
    assert (a + b)[..j] == a + b[..j - |a|];
    EditedConcat(d, a, b[..j - |a|]);
  }

  // ---- The file operations of an append ----

  function PartEdits(channel: Channel, parts: seq<Bytes>, cursor: nat): (edits: seq<Edit>)
    ensures |edits| == |parts|
    decreases |parts|
  {
    if |parts| == 0 then []
    else
      var end := cursor + |parts[0]|;
      [Put(ChunkFile(cursor, end, channel), DiskChunk(cursor, end, channel, parts[0], false))]
      + PartEdits(channel, parts[1..], end)
  }

  lemma {:induction false} FirstPartEdits(channel: Channel, parts: seq<Bytes>, k: nat, at: nat)
    requires k <= |parts|
    ensures PartEdits(channel, parts, at)[..k] == PartEdits(channel, parts[..k], at)
    decreases |parts|
  {
    if k > 0 {
      assert parts[..k][0] == parts[0] && parts[..k][1..] == parts[1..][..k - 1];
      FirstPartEdits(channel, parts[1..], k - 1, at + |parts[0]|);
    }
  }

  function PartPut(c: DiskChunk): seq<Edit> {
    if c.text == [] then [] else [Put(ChunkFile(c.start, c.end, c.channel), c)]
  }

  function TrimEdits(c: DiskChunk, prefixLen: nat, suffixStart: nat): seq<Edit>
    requires prefixLen <= suffixStart <= |c.text|
  {
    [Remove(ChunkFile(c.start, c.end, c.channel))] + (PartPut(HeadPart(c, prefixLen)) + PartPut(TailPart(c, suffixStart)))
  }

  function CutEdits(c: DiskChunk, r: LogRetention, tailStart: nat): seq<Edit> {
    var requestedStart, requestedEnd := Max(c.start, r.headBytes), Min(c.end, tailStart);
    if c.marker || requestedStart >= requestedEnd then []
    else
      CutsInOrder(c.text, Min(requestedStart - c.start, |c.text|), Min(requestedEnd - c.start, |c.text|));
      TrimEdits(c, Floor(c.text, Min(requestedStart - c.start, |c.text|)), Ceil(c.text, Min(requestedEnd - c.start,
        |c.text|)))
  }

  function PassEdits(cs: seq<DiskChunk>, r: LogRetention, tailStart: nat): seq<Edit>
    decreases |cs|
  {
    if |cs| == 0 then [] else PassEdits(cs[..|cs| - 1], r, tailStart) + CutEdits(cs[|cs| - 1], r, tailStart)
  }

  function MarkerEdits(s: PassState): seq<Edit> {
    if s.dropped.None? then [] else [Remove(MarkerFile), Put(MarkerFile, Marker(s.dropped.value, s.droppedEnd))]
  }

  function RetentionEdits(d: Directory, cs: seq<DiskChunk>, r: LogRetention, tailStart: nat): seq<Edit> {
    PassEdits(cs, r, tailStart) + MarkerEdits(Pass(d, cs, r, tailStart))
  }

  /** Everything an append does to the files before it updates the row. */
  ghost function AppendEdits(s: Stream, r: LogRetention, channel: Channel, inputLength: nat, text: Bytes): seq<Edit>
    requires r.Valid() && Ready(s, channel, text)
  {
    var h, ch := s.h + text, s.ch + seq(|text|, _ => channel);
    var e := Written(s.d, channel, Split(text, CHUNK_BYTES), |s.h|);
    PartEdits(channel, Split(text, CHUNK_BYTES), |s.h|)
    + (if s.row.totalBytes + inputLength <= r.rawLimitBytes then []
       else RetentionEdits(e, ListingOf(e, h, ch), r, TailStart(h, r)))
  }

  // ---- Carried out completely they are the append ----

  lemma {:induction false} PartsWrite(d: Directory, channel: Channel, parts: seq<Bytes>, cursor: nat)
    ensures EditedAll(d, PartEdits(channel, parts, cursor)) == Written(d, channel, parts, cursor)
    decreases |parts|
  {
    if |parts| > 0 {
      var edits := PartEdits(channel, parts, cursor);
      EditedConcat(d, [edits[0]], edits[1..]);
      EditedOne(d, edits[0]);
      assert edits == [edits[0]] + edits[1..];
      PartsWrite(Edited(d, edits[0]), channel, parts[1..], cursor + |parts[0]|);
    }
  }

  lemma PutIsWithPart(d: Directory, c: DiskChunk)
    ensures EditedAll(d, PartPut(c)) == WithPart(d, c)
  {
    if c.text != [] {
      EditedOne(d, PartPut(c)[0]);
    }
  }

  lemma TrimIsTrimmed(d: Directory, c: DiskChunk, p: nat, q: nat)
    requires p <= q <= |c.text|
    ensures EditedAll(d, TrimEdits(c, p, q)) == Trimmed(d, c, p, q)
  {
    var remove := Remove(ChunkFile(c.start, c.end, c.channel));
    var head, tail := PartPut(HeadPart(c, p)), PartPut(TailPart(c, q));
    EditedConcat(d, [remove], head + tail);
    EditedOne(d, remove);
    var removed := Edited(d, remove);
    EditedConcat(removed, head, tail);
    PutIsWithPart(removed, HeadPart(c, p));
    PutIsWithPart(WithPart(removed, HeadPart(c, p)), TailPart(c, q));
  }

  lemma CutIsPassOver(s: PassState, c: DiskChunk, r: LogRetention, tailStart: nat)
    ensures EditedAll(s.directory, CutEdits(c, r, tailStart)) == PassOver(s, c, r, tailStart).directory
  {
    var requestedStart, requestedEnd := Max(c.start, r.headBytes), Min(c.end, tailStart);
    if !c.marker && requestedStart < requestedEnd {
      CutsInOrder(c.text, Min(requestedStart - c.start, |c.text|), Min(requestedEnd - c.start, |c.text|));
      TrimIsTrimmed(s.directory, c, Floor(c.text, Min(requestedStart - c.start, |c.text|)),
                    Ceil(c.text, Min(requestedEnd - c.start, |c.text|)));
    }
  }

  lemma {:induction false} PassIsEdited(d: Directory, cs: seq<DiskChunk>, r: LogRetention, tailStart: nat)
    ensures EditedAll(d, PassEdits(cs, r, tailStart)) == Pass(d, cs, r, tailStart).directory
    decreases |cs|
  {
    if |cs| > 0 {
      var n := |cs| - 1;
      PassIsEdited(d, cs[..n], r, tailStart);
      CutIsPassOver(Pass(d, cs[..n], r, tailStart), cs[n], r, tailStart);
      EditedConcat(d, PassEdits(cs[..n], r, tailStart), CutEdits(cs[n], r, tailStart));
    }
  }

  lemma MarkerIsPut(d: Directory, s: PassState)
    ensures EditedAll(d, MarkerEdits(s))
         == if s.dropped.Some? then d[MarkerFile := Marker(s.dropped.value, s.droppedEnd)] else d
  {
    if s.dropped.Some? {
      var edits := MarkerEdits(s);
      assert edits[..1] == [edits[0]];
      EditedOne(d, edits[0]);
      var marker := Marker(s.dropped.value, s.droppedEnd);
      assert (d - {MarkerFile})[MarkerFile := marker] == d[MarkerFile := marker];
    }
  }

  lemma RetentionIsCut(d: Directory, cs: seq<DiskChunk>, r: LogRetention, tailStart: nat)
    ensures EditedAll(d, RetentionEdits(d, cs, r, tailStart)) == Cut(d, cs, r, tailStart)
  {
    var s := Pass(d, cs, r, tailStart);
    PassIsEdited(d, cs, r, tailStart);
    EditedConcat(d, PassEdits(cs, r, tailStart), MarkerEdits(s));
    MarkerIsPut(s.directory, s);
  }

  /** All file operations of an append leave the directory of the state after it. */
  lemma EditsAreTheAppend(s: Stream, r: LogRetention, channel: Channel, inputLength: nat, text: Bytes)
    requires r.Valid() && Ready(s, channel, text)
    ensures EditedAll(s.d, AppendEdits(s, r, channel, inputLength, text)) == AfterAppend(s, r, channel, inputLength, text).d
  {
    var h, ch := s.h + text, s.ch + seq(|text|, _ => channel);
    var parts := Split(text, CHUNK_BYTES);
    var e := Written(s.d, channel, parts, |s.h|);
    PartsWrite(s.d, channel, parts, |s.h|);
    if s.row.totalBytes + inputLength <= r.rawLimitBytes {
      assert PartEdits(channel, parts, |s.h|) + [] == PartEdits(channel, parts, |s.h|);
    } else {
      var cs := ListingOf(e, h, ch);
      RetentionIsCut(e, cs, r, TailStart(h, r));
      EditedConcat(s.d, PartEdits(channel, parts, |s.h|), RetentionEdits(e, cs, r, TailStart(h, r)));
    }
  }

  // ---- The same over any files, also ones that overlap ----

  /** The file operations of an append; `cs` is the listing it reads when it has written its text. */
  ghost function EditsOver(s: Stream, r: LogRetention, channel: Channel, inputLength: nat, text: Bytes,
                           cs: seq<DiskChunk>): seq<Edit>
    requires r.Valid() && IsText(text)
  {
    PartEdits(channel, Split(text, CHUNK_BYTES), |s.h|)
    + (if s.row.totalBytes + inputLength <= r.rawLimitBytes then []
       else RetentionEdits(Written(s.d, channel, Split(text, CHUNK_BYTES), |s.h|), cs, r, Minus(|s.h| + |text|,
         r.TailBytes())))
  }

  /** The stream after the append; `measured` is the listing it reads when it has cut. */
  ghost function AfterOver(s: Stream, r: LogRetention, channel: Channel, inputLength: nat, text: Bytes, cs: seq<DiskChunk>,
                           measured: seq<DiskChunk>): Stream
    requires r.Valid() && IsText(text)
  {
    var h, ch, total := s.h + text, s.ch + seq(|text|, _ => channel), s.row.totalBytes + inputLength;
    var e := Written(s.d, channel, Split(text, CHUNK_BYTES), |s.h|);
    if total <= r.rawLimitBytes then Stream(e, h, ch, Row(0, |h|, s.row.retainedBytes + |text|, total, false))
    else Stream(Cut(e, cs, r, Minus(|s.h| + |text|, r.TailBytes())), h, ch, Measured(measured, |h|, total, r))
  }

  /** The append may read these listings. */
  ghost predicate MayRead(s: Stream, r: LogRetention, channel: Channel, inputLength: nat, text: Bytes, cs: seq<DiskChunk>,
                          measured: seq<DiskChunk>)
    requires r.Valid() && IsText(text)
  {
    && Lists(Written(s.d, channel, Split(text, CHUNK_BYTES), |s.h|), cs)
    && Lists(AfterOver(s, r, channel, inputLength, text, cs, measured).d, measured)
  }

  lemma EditsAreOver(s: Stream, r: LogRetention, channel: Channel, inputLength: nat, text: Bytes, cs: seq<DiskChunk>,
                     measured: seq<DiskChunk>)
    requires r.Valid() && IsText(text)
    ensures EditedAll(s.d, EditsOver(s, r, channel, inputLength, text, cs))
         == AfterOver(s, r, channel, inputLength, text, cs, measured).d
  {
    var parts, tail := Split(text, CHUNK_BYTES), Minus(|s.h| + |text|, r.TailBytes());
    var e, writing := Written(s.d, channel, parts, |s.h|), PartEdits(channel, parts, |s.h|);
    PartsWrite(s.d, channel, parts, |s.h|);
    if s.row.totalBytes + inputLength <= r.rawLimitBytes {
      assert writing + [] == writing;
    } else {
      RetentionIsCut(e, cs, r, tail);
      EditedConcat(s.d, writing, RetentionEdits(e, cs, r, tail));
    }
  }

  /** Without overlapping files it is the append described before. */
  lemma OverIsTheAppend(s: Stream, r: LogRetention, channel: Channel, inputLength: nat, text: Bytes, cs: seq<DiskChunk>,
                        measured: seq<DiskChunk>)
    requires r.Valid() && Ready(s, channel, text) && MayRead(s, r, channel, inputLength, text, cs, measured)
    ensures EditsOver(s, r, channel, inputLength, text, cs) == AppendEdits(s, r, channel, inputLength, text)
    ensures AfterOver(s, r, channel, inputLength, text, cs, measured) == AfterAppend(s, r, channel, inputLength, text)
  {
    var h, ch := s.h + text, s.ch + seq(|text|, _ => channel);
    var e := Written(s.d, channel, Split(text, CHUNK_BYTES), |s.h|);
    ListsInOrder(e, cs, h, ch);
    ListingUnique(e, cs, ListingOf(e, h, ch));
    var f := AfterOver(s, r, channel, inputLength, text, cs, measured).d;
    CutKeepsSpared(e, cs, h, ch, r);
    ListsInOrder(f, measured, h, ch);
    ListingUnique(f, measured, ListingOf(f, h, ch));
  }

  // ---- Files stay named by their contents ----

  ghost predicate Safe(edits: seq<Edit>) {
    forall k | 0 <= k < |edits| && edits[k].Put? :: Named(edits[k].name, edits[k].chunk)
  }

  lemma {:induction false} SafeKeeps(d: Directory, edits: seq<Edit>)
    requires Indexed(d) && Safe(edits)
    ensures Indexed(EditedAll(d, edits))
    decreases |edits|
  {
    if |edits| > 0 {
      SafeKeeps(d, edits[..|edits| - 1]);
      assert edits[|edits| - 1].Put? ==> Named(edits[|edits| - 1].name, edits[|edits| - 1].chunk);
    }
  }

  lemma SafeConcat(a: seq<Edit>, b: seq<Edit>)
    requires Safe(a) && Safe(b)
    ensures Safe(a + b)
  {
  }

  lemma {:induction false} SafeParts(channel: Channel, parts: seq<Bytes>, at: nat)
    requires at + |Flatten(parts)| < U64_BOUND && forall p | p in parts :: |p| > 0
    ensures Safe(PartEdits(channel, parts, at))
    decreases |parts|
  {
    if |parts| > 0 {
      assert parts[0] in parts && forall p | p in parts[1..] :: p in parts;
      SafeParts(channel, parts[1..], at + |parts[0]|);
    }
  }

  /** None of the chunk is cut. */
  predicate Skips(c: DiskChunk, r: LogRetention, tailStart: nat) {
    c.marker || Max(c.start, r.headBytes) >= Min(c.end, tailStart)
  }

  /** The part before the cut. */
  function PrefixLen(c: DiskChunk, r: LogRetention): nat {
    Floor(c.text, Min(Max(c.start, r.headBytes) - c.start, |c.text|))
  }

  /** Where the part behind the cut starts. */
  function SuffixStart(c: DiskChunk, r: LogRetention, tailStart: nat): nat
    requires !Skips(c, r, tailStart)
  {
    Ceil(c.text, Min(Min(c.end, tailStart) - c.start, |c.text|))
  }

  lemma CutIsTrim(c: DiskChunk, r: LogRetention, tailStart: nat)
    requires !Skips(c, r, tailStart)
    ensures PrefixLen(c, r) <= SuffixStart(c, r, tailStart) <= |c.text|
    ensures CutEdits(c, r, tailStart) == TrimEdits(c, PrefixLen(c, r), SuffixStart(c, r, tailStart))
  {
    CutsInOrder(c.text, Min(Max(c.start, r.headBytes) - c.start, |c.text|), Min(Min(c.end, tailStart) - c.start, |c.text|));
  }

  lemma CutIsWide(c: DiskChunk, r: LogRetention, tailStart: nat)
    requires Named(NameOf(c), c) && !Skips(c, r, tailStart)
    ensures PrefixLen(c, r) < SuffixStart(c, r, tailStart)
  {
  }

  lemma SkipsMakeNoEdits(s: PassState, c: DiskChunk, r: LogRetention, tailStart: nat)
    ensures Skips(c, r, tailStart) ==> CutEdits(c, r, tailStart) == [] && PassOver(s, c, r, tailStart) == s
  {
  }

  lemma PassOverNotes(s: PassState, c: DiskChunk, r: LogRetention, tailStart: nat)
    requires !Skips(c, r, tailStart)
    ensures var t, start, end := PassOver(s, c, r, tailStart), c.start + PrefixLen(c, r), c.start + SuffixStart(c, r,
            tailStart);
            && t.dropped == Some(if s.dropped.Some? then Min(s.dropped.value, start) else start)
            && t.droppedEnd == Max(s.droppedEnd, end)
  {
    CutIsTrim(c, r, tailStart);
    PassOverCuts(s, c, r, tailStart, PrefixLen(c, r), SuffixStart(c, r, tailStart));
  }

  lemma SafeTrim(c: DiskChunk, p: nat, q: nat)
    requires Named(NameOf(c), c) && !c.marker && p <= q <= |c.text|
    ensures Safe(TrimEdits(c, p, q))
  {
    SafeConcat(PartPut(HeadPart(c, p)), PartPut(TailPart(c, q)));
  }

  lemma SafeCut(c: DiskChunk, r: LogRetention, tailStart: nat)
    requires Named(NameOf(c), c)
    ensures Safe(CutEdits(c, r, tailStart))
  {
    if !Skips(c, r, tailStart) {
      CutIsTrim(c, r, tailStart);
      SafeTrim(c, PrefixLen(c, r), SuffixStart(c, r, tailStart));
    }
  }

  lemma {:induction false} SafePass(d: Directory, cs: seq<DiskChunk>, r: LogRetention, tailStart: nat)
    requires forall c | c in cs :: Named(NameOf(c), c)
    ensures Safe(PassEdits(cs, r, tailStart))
    ensures var s := Pass(d, cs, r, tailStart); s.dropped.Some? ==> s.dropped.value < s.droppedEnd < U64_BOUND
    ensures var s := Pass(d, cs, r, tailStart); s.dropped.None? ==> s.droppedEnd == 0
    decreases |cs|
  {
    if |cs| > 0 {
      var c, before := cs[|cs| - 1], cs[..|cs| - 1];
      assert c in cs && forall x | x in before :: x in cs;
      SafePass(d, before, r, tailStart);
      SafeCut(c, r, tailStart);
      SafeConcat(PassEdits(before, r, tailStart), CutEdits(c, r, tailStart));
      if !Skips(c, r, tailStart) {
        CutIsWide(c, r, tailStart);
        CutIsTrim(c, r, tailStart);
      }
    }
  }

  lemma ListedNamed(d: Directory, cs: seq<DiskChunk>)
    requires Indexed(d) && Holding(d, cs)
    ensures forall c | c in cs :: Named(NameOf(c), c)
  {
    forall c | c in cs
      ensures Named(NameOf(c), c)
    {
      assert NameOf(c) in d;
    }
  }

  lemma SafeRetention(d: Directory, cs: seq<DiskChunk>, r: LogRetention, tailStart: nat)
    requires Indexed(d) && Holding(d, cs)
    ensures Safe(RetentionEdits(d, cs, r, tailStart))
  {
    ListedNamed(d, cs);
    SafePass(d, cs, r, tailStart);
    SafeConcat(PassEdits(cs, r, tailStart), MarkerEdits(Pass(d, cs, r, tailStart)));
  }

  lemma WrittenIndexed(d: Directory, channel: Channel, text: Bytes, at: nat)
    requires Indexed(d) && IsText(text) && at + |text| < U64_BOUND
    ensures Safe(PartEdits(channel, Split(text, CHUNK_BYTES), at))
    ensures Indexed(Written(d, channel, Split(text, CHUNK_BYTES), at))
  {
    var parts := Split(text, CHUNK_BYTES);
    SplitLosesNothing(text, CHUNK_BYTES);
    SafeParts(channel, parts, at);
    SafeKeeps(d, PartEdits(channel, parts, at));
    PartsWrite(d, channel, parts, at);
  }

  /** However far an append gets, files stay named by their contents. */
  lemma AppendIndexed(s: Stream, r: LogRetention, channel: Channel, inputLength: nat, text: Bytes, cs: seq<DiskChunk>, k: nat)
    requires r.Valid() && IsText(text) && |s.h| + |text| < U64_BOUND && Indexed(s.d)
    requires Lists(Written(s.d, channel, Split(text, CHUNK_BYTES), |s.h|), cs)
    requires k <= |EditsOver(s, r, channel, inputLength, text, cs)|
    ensures Indexed(EditedAll(s.d, EditsOver(s, r, channel, inputLength, text, cs)[..k]))
  {
    WrittenIndexed(s.d, channel, text, |s.h|);
    var e, tail := Written(s.d, channel, Split(text, CHUNK_BYTES), |s.h|), Minus(|s.h| + |text|, r.TailBytes());
    SafeRetention(e, cs, r, tail);
    SafeConcat(PartEdits(channel, Split(text, CHUNK_BYTES), |s.h|), RetentionEdits(e, cs, r, tail));
    SafeKeeps(s.d, EditsOver(s, r, channel, inputLength, text, cs)[..k]);
  }
}
