/** One log stream as it is kept: a directory of chunk files, changed file by file, and a row that is
    updated last. Any of these operations may fail; then the append ends with an error and everything
    stays as the operations before it left it. */
module LogStream {
  import opened Common
  import opened Text
  import opened LogNames
  import opened LogDirectory
  import opened LogPaging
  import opened LogStore
  import opened LogEdits

  // ---- Running edits until they fail ----

  /** Of `todo`, as many edits as the budget allows were carried out; `ok` says whether all were. */
  ghost predicate Ran(before: Directory, budget: nat, todo: seq<Edit>, after: Directory, left: nat, ok: bool) {
    var k := Min(|todo|, budget);
    after == EditedAll(before, todo[..k]) && left == budget - k && (ok <==> |todo| <= budget)
  }

  lemma RanNone(d: Directory, budget: nat)
    ensures Ran(d, budget, [], d, budget, true)
  {
  }

  lemma RanAll(before: Directory, budget: nat, todo: seq<Edit>, after: Directory, left: nat)
    requires Ran(before, budget, todo, after, left, true)
    ensures after == EditedAll(before, todo) && left == budget - |todo|
  {
    assert todo[..|todo|] == todo;
  }

  lemma RanOne(d: Directory, budget: nat, e: Edit)
    ensures if budget > 0 then Ran(d, budget, [e], Edited(d, e), budget - 1, true) else Ran(d, budget, [e], d, budget, false)
  {
    assert [e][..1] == [e];
    EditedOne(d, e);
  }

  lemma RanThen(d0: Directory, b0: nat, first: seq<Edit>, d1: Directory, b1: nat, second: seq<Edit>, d2: Directory,
                b2: nat, ok: bool)
    requires Ran(d0, b0, first, d1, b1, true) && Ran(d1, b1, second, d2, b2, ok)
    ensures Ran(d0, b0, first + second, d2, b2, ok)
  {
    RanAll(d0, b0, first, d1, b1);
    PrefixBeyond(d0, first, second, |first| + Min(|second|, b1));
  }

  lemma RanStops(d0: Directory, b0: nat, first: seq<Edit>, d1: Directory, b1: nat, all: seq<Edit>)
    requires Ran(d0, b0, first, d1, b1, false) && first <= all
    ensures Ran(d0, b0, all, d1, b1, false)
  {
    assert all[..b0] == first[..b0];
  }

  lemma {:induction false} PassEditsGrow(cs: seq<DiskChunk>, k: nat, r: LogRetention, tailStart: nat)
    requires k <= |cs|
    ensures PassEdits(cs[..k], r, tailStart) <= PassEdits(cs, r, tailStart)
    decreases |cs|
  {
    if k == |cs| {
      assert cs[..k] == cs;
    } else {
      PassEditsGrow(cs[..|cs| - 1], k, r, tailStart);
      assert cs[..|cs| - 1][..k] == cs[..k];
    }
  }

  lemma PassEditsSnoc(cs: seq<DiskChunk>, k: nat, r: LogRetention, tailStart: nat)
    requires k < |cs|
    ensures PassEdits(cs[..k + 1], r, tailStart) == PassEdits(cs[..k], r, tailStart) + CutEdits(cs[k], r, tailStart)
  {
    assert cs[..k + 1][..k] == cs[..k];
  }

  lemma {:induction false} PartEditsSnoc(channel: Channel, parts: seq<Bytes>, k: nat, at: nat, cursor: nat)
    requires k < |parts| && cursor == at + |Flatten(parts[..k])|
    ensures PartEdits(channel, parts[..k + 1], at)
         == PartEdits(channel, parts[..k], at) + PartEdits(channel, [parts[k]], cursor)
    ensures |Flatten(parts[..k + 1])| == |Flatten(parts[..k])| + |parts[k]|
    decreases k
  {
    if k == 0 {
      assert parts[..1] == [parts[0]] && parts[..0] == [];
      assert [parts[0]][1..] == [];
    } else {
      var rest := parts[1..];
      assert parts[..k + 1][1..] == rest[..k] && parts[..k][1..] == rest[..k - 1] && rest[k - 1] == parts[k];
      PartEditsSnoc(channel, rest, k - 1, at + |parts[0]|, cursor);
    }
  }

  lemma OnePartEdit(channel: Channel, part: Bytes, at: nat)
    ensures PartEdits(channel, [part], at)
         == [Put(ChunkFile(at, at + |part|, channel), DiskChunk(at, at + |part|, channel, part, false))]
  {
    assert [part][1..] == [];
  }

  // ---- What an append amounts to ----

  datatype AppendResult = Appended | InvalidRetention | ResourceBusy | Failed
  datatype ReadResult = LogRange(chunks: seq<LogChunk>) | ScrollbackExpired(firstCursor: nat)

  /** The row is stored in signed 64-bit fields. */
  predicate RowFits(row: Row) {
    row.firstCursor < I64_BOUND && row.nextCursor < I64_BOUND && row.retainedBytes < I64_BOUND && row.totalBytes < I64_BOUND
  }

  datatype Outcome = Outcome(result: AppendResult, stream: Stream)

  /** How an append ends that makes the file operations `todo` and leads to `after`, when `budget` operations
      succeed: these, the update of the row, and reading the row back. Before the row is updated only files
      have changed. */
  ghost function OutcomeOf(s: Stream, todo: seq<Edit>, after: Stream, budget: nat): Outcome {
    if budget <= |todo| || !RowFits(after.row)
    then Outcome(Failed, s.(d := EditedAll(s.d, todo[..Min(budget, |todo|)])))
    else Outcome(if budget == |todo| + 1 then Failed else Appended, after)
  }

  function Clamp(limitBytes: nat): nat {
    Max(1, Min(limitBytes, MAX_READ_BYTES))
  }

  lemma MarkerFirstIsSorted(cs: seq<DiskChunk>)
    requires Sorted(cs, true)
    ensures Sorted(cs, false)
  {
    forall i, j | 0 <= i < j < |cs|
      ensures Key(cs[i], false) <= Key(cs[j], false) && cs[i] != cs[j]
    {
      assert Key(cs[i], true) <= Key(cs[j], true);
    }
  }

  predicate RowExceeds(row: Row) {
    || row.firstCursor >= 0x8000_0000_0000_0000 || row.nextCursor >= 0x8000_0000_0000_0000
    || row.retainedBytes >= 0x8000_0000_0000_0000 || row.totalBytes >= 0x8000_0000_0000_0000
  }

  /** `t` is `s` after a completed append, in terms of the text, the input and the files that are left. */
  ghost predicate Extends(s: Stream, r: LogRetention, channel: Channel, inputLength: nat, text: Bytes,
                          measured: seq<DiskChunk>, t: Stream) {
    && t.h == s.h + text && t.ch == s.ch + seq(|text|, _ => channel)
    && t.row.nextCursor == |t.h| && t.row.totalBytes == s.row.totalBytes + inputLength
    && (t.row.truncated <==> t.row.totalBytes > r.rawLimitBytes)
    && if t.row.truncated
       then
         && Lists(t.d, measured)
         && t.row.retainedBytes == |Payload(measured)| + (if MarkerFile in t.d then |t.d[MarkerFile].text| else 0)
       else t.row.firstCursor == 0 && t.row.retainedBytes == s.row.retainedBytes + |text|
  }

  lemma OverExtends(s: Stream, r: LogRetention, channel: Channel, inputLength: nat, text: Bytes, cs: seq<DiskChunk>,
                    measured: seq<DiskChunk>)
    requires r.Valid() && IsText(text) && |s.h| + |text| < U64_BOUND && Indexed(s.d)
    requires MayRead(s, r, channel, inputLength, text, cs, measured)
    ensures Extends(s, r, channel, inputLength, text, measured, AfterOver(s, r, channel, inputLength, text, cs, measured))
  {
    var t, all := AfterOver(s, r, channel, inputLength, text, cs, measured), EditsOver(s, r, channel, inputLength, text, cs);
    if t.row.truncated {
      AppendIndexed(s, r, channel, inputLength, text, cs, |all|);
      assert all[..|all|] == all;
      EditsAreOver(s, r, channel, inputLength, text, cs, measured);
      RetainedLength(t.d, measured, true);
    }
  }

  lemma WritingStopped(s: Stream, r: LogRetention, channel: Channel, inputLength: nat, text: Bytes, cs: seq<DiskChunk>,
                       budget: nat, d: Directory, left: nat)
    requires r.Valid() && IsText(text)
             && Ran(s.d, budget, PartEdits(channel, Split(text, CHUNK_BYTES), |s.h|), d, left, false)
    ensures Ran(s.d, budget, EditsOver(s, r, channel, inputLength, text, cs), d, left, false)
  {
    RanStops(s.d, budget, PartEdits(channel, Split(text, CHUNK_BYTES), |s.h|), d, left,
             EditsOver(s, r, channel, inputLength, text, cs));
  }

  /** What an append that gets as far would read at its end. */
  ghost function AnyMeasured(s: Stream, r: LogRetention, channel: Channel, inputLength: nat, text: Bytes, cs: seq<DiskChunk>)
    : (measured: seq<DiskChunk>)
    requires r.Valid() && IsText(text) && |s.h| + |text| < U64_BOUND && Indexed(s.d)
    requires Lists(Written(s.d, channel, Split(text, CHUNK_BYTES), |s.h|), cs)
    ensures MayRead(s, r, channel, inputLength, text, cs, measured)
  {
    var all := EditsOver(s, r, channel, inputLength, text, cs);
    AppendIndexed(s, r, channel, inputLength, text, cs, |all|);
    assert all[..|all|] == all;
    EditsAreOver(s, r, channel, inputLength, text, cs, []);
    SomeListing(EditedAll(s.d, all))
  }

  lemma CuttingRan(s: Stream, r: LogRetention, channel: Channel, inputLength: nat, text: Bytes, cs: seq<DiskChunk>,
                   b0: nat, b1: nat, d: Directory, left: nat, ok: bool)
    requires r.Valid() && IsText(text) && s.row.totalBytes + inputLength > r.rawLimitBytes
    requires var e := Written(s.d, channel, Split(text, CHUNK_BYTES), |s.h|);
             && Ran(s.d, b0, PartEdits(channel, Split(text, CHUNK_BYTES), |s.h|), e, b1, true)
             && Ran(e, b1, RetentionEdits(e, cs, r, Minus(|s.h| + |text|, r.TailBytes())), d, left, ok)
    ensures Ran(s.d, b0, EditsOver(s, r, channel, inputLength, text, cs), d, left, ok)
  {
    var e := Written(s.d, channel, Split(text, CHUNK_BYTES), |s.h|);
    RanThen(s.d, b0, PartEdits(channel, Split(text, CHUNK_BYTES), |s.h|), e, b1,
            RetentionEdits(e, cs, r, Minus(|s.h| + |text|, r.TailBytes())), d, left, ok);
  }

  /** What the append read at its end, or would have read if it had got as far. */
  lemma CuttingRead(s: Stream, r: LogRetention, channel: Channel, inputLength: nat, text: Bytes, cs: seq<DiskChunk>,
                    budget: nat, d: Directory, left: nat, ok: bool, listed: seq<DiskChunk>) returns (measured: seq<DiskChunk>)
    requires r.Valid() && IsText(text) && s.row.totalBytes + inputLength > r.rawLimitBytes
    requires |s.h| + |text| < U64_BOUND && Indexed(s.d) && Lists(Written(s.d, channel, Split(text, CHUNK_BYTES), |s.h|), cs)
    requires Ran(s.d, budget, EditsOver(s, r, channel, inputLength, text, cs), d, left, ok) && (ok ==> Lists(d, listed))
    ensures MayRead(s, r, channel, inputLength, text, cs, measured)
    ensures ok ==> AfterOver(s, r, channel, inputLength, text, cs, measured).row
                   == Measured(listed, |s.h| + |text|, s.row.totalBytes + inputLength, r)
  {
    measured := if ok then listed else AnyMeasured(s, r, channel, inputLength, text, cs);
    if ok {
      RanAll(s.d, budget, EditsOver(s, r, channel, inputLength, text, cs), d, left);
      EditsAreOver(s, r, channel, inputLength, text, cs, measured);
    }
  }

  lemma NothingToCut(s: Stream, r: LogRetention, channel: Channel, inputLength: nat, text: Bytes, cs: seq<DiskChunk>,
                     measured: seq<DiskChunk>)
    requires r.Valid() && IsText(text) && s.row.totalBytes + inputLength <= r.rawLimitBytes
    ensures EditsOver(s, r, channel, inputLength, text, cs) == PartEdits(channel, Split(text, CHUNK_BYTES), |s.h|)
    ensures AfterOver(s, r, channel, inputLength, text, cs, measured).row
         == Row(0, |s.h| + |text|, s.row.retainedBytes + |text|, s.row.totalBytes + inputLength, false)
  {
  }

  lemma AnyListings(s: Stream, r: LogRetention, channel: Channel, inputLength: nat, text: Bytes)
    returns (cs: seq<DiskChunk>, measured: seq<DiskChunk>)
    requires r.Valid() && IsText(text) && |s.h| + |text| < U64_BOUND && Indexed(s.d)
    ensures MayRead(s, r, channel, inputLength, text, cs, measured)
    ensures Indexed(Written(s.d, channel, Split(text, CHUNK_BYTES), |s.h|))
  {
    WrittenIndexed(s.d, channel, text, |s.h|);
    cs := SomeListing(Written(s.d, channel, Split(text, CHUNK_BYTES), |s.h|));
    measured := AnyMeasured(s, r, channel, inputLength, text, cs);
  }

  lemma PartRan(before: Directory, limit: nat, channel: Channel, parts: seq<Bytes>, k: nat, at: nat, start: nat,
                d: Directory, b: nat, after: Directory, left: nat, ok: bool)
    requires k < |parts| && start == at + |Flatten(parts[..k])|
    requires Ran(before, limit, PartEdits(channel, parts[..k], at), d, b, true)
    requires var end := start + |parts[k]|;
             Ran(d, b, [Put(ChunkFile(start, end, channel), DiskChunk(start, end, channel, parts[k], false))], after,
               left, ok)
    ensures Ran(before, limit, PartEdits(channel, parts[..k + 1], at), after, left, ok)
    ensures |Flatten(parts[..k + 1])| == |Flatten(parts[..k])| + |parts[k]|
    ensures !ok ==> Ran(before, limit, PartEdits(channel, parts, at), after, left, false)
  {
    PartEditsSnoc(channel, parts, k, at, start);
    OnePartEdit(channel, parts[k], start);
    RanThen(before, limit, PartEdits(channel, parts[..k], at), d, b, PartEdits(channel, [parts[k]], start), after, left, ok);
    if !ok {
      FirstPartEdits(channel, parts, k + 1, at);
      RanStops(before, limit, PartEdits(channel, parts[..k + 1], at), after, left, PartEdits(channel, parts, at));
    }
  }

  /** One more file is read, if it ends beyond `after`. */
  lemma BeyondStep(d: Directory, names: set<FileName>, name: FileName, after: nat, chunks: seq<DiskChunk>)
    requires Indexed(d) && name in names && names <= d.Keys && Sorted(chunks, true)
             && Holding(Beyond(d - names, after), chunks)
    ensures var next := if d[name].end > after then InsertByStart(chunks, d[name], true) else chunks;
            Sorted(next, true) && Holding(Beyond(d - (names - {name}), after), next)
  {
    var more := Beyond(d - (names - {name}), after);
    if d[name].end > after {
      assert more - {name} == Beyond(d - names, after) && Named(name, d[name]);
      InsertLists(more, name, chunks, true);
    } else {
      assert more == Beyond(d - names, after);
    }
  }

  class LogStream {
    const retention: LogRetention
    var directory: Directory
    var firstCursor: nat
    var nextCursor: nat
    var retainedBytes: nat
    var totalBytes: nat
    var truncated: bool
    var closed: bool
    /** How many more operations succeed. */
    var budget: nat
    /** The text of all completed appends, and the channel of each of its bytes. */
    ghost var history: Bytes
    ghost var channels: seq<Channel>

    ghost function State(): Stream
      reads this
    {
      Stream(directory, history, channels, Row(firstCursor, nextCursor, retainedBytes, totalBytes, truncated))
    }

    /** What holds after any appends, completed or not. */
    ghost predicate Consistent()
      reads this
    {
      nextCursor == |history| && RowFits(State().row) && Indexed(directory)
    }

    /** No append has failed, or what failed ones left was overwritten without loss. */
    ghost predicate Valid()
      reads this
    {
      SoundStream(State(), retention)
    }

    constructor (retention: LogRetention, budget: nat)
      ensures Valid() && Consistent() && State() == EMPTY_STREAM
      ensures this.retention == retention && this.budget == budget && !closed
    {
      this.retention, this.budget := retention, budget;
      directory := map[];
      firstCursor, nextCursor, retainedBytes, totalBytes := 0, 0, 0, 0;
      truncated, closed := false, false;
      history, channels := [], [];
      new;
      EmptyIsSound(retention);
    }

    method Close() returns (ok: bool)
      modifies this`closed, this`budget
      ensures ok <==> old(budget) > 0
      ensures closed == (ok || old(closed)) && budget == Minus(old(budget), 1) && State() == old(State())
    {
      ok := budget > 0;
      if ok {
        closed, budget := true, budget - 1;
      }
    }

    // ---- Reading ----

    /** All files in cursor order. */
    method ReadChunks() returns (chunks: seq<DiskChunk>)
      requires Indexed(directory)
      ensures Lists(directory, chunks)
    {
      chunks := [];
      var names := directory.Keys;
      while names != {}
        invariant names <= directory.Keys && Sorted(chunks, false) && Holding(directory - names, chunks)
        decreases names
      {
        var name :| name in names;
        assert (directory - (names - {name})) - {name} == directory - names;
        InsertLists(directory - (names - {name}), name, chunks, false);
        chunks := InsertByStart(chunks, directory[name], false);
        names := names - {name};
      }
      assert directory - {} == directory;
    }

    /** The cursor at which a file ends: read from the marker, parsed from the name of a chunk. */
    method EndOf(name: FileName) returns (end: nat)
      requires Indexed(directory) && name in directory
      ensures end == directory[name].end
    {
      assert Named(name, directory[name]);
      if name == MarkerFile {
        return directory[name].end;
      }
      var range := ParseChunkRange(Render(name));
      ParseUndoesRender(name);
      end := range.value.1;
    }

    /** The chunks that end beyond `after`, found without reading the other files. */
    method ReadChunksFrom(after: nat, ghost h: Bytes, ghost ch: seq<Channel>) returns (chunks: seq<DiskChunk>)
      requires Indexed(directory)
      ensures Lists(Beyond(directory, after), chunks) && Sorted(chunks, true)
      ensures WellFormed(directory, h, ch) ==> chunks == Pending(ListingOf(directory, h, ch), after)
    {
      chunks := [];
      var names := directory.Keys;
      while names != {}
        invariant names <= directory.Keys && Sorted(chunks, true) && Holding(Beyond(directory - names, after), chunks)
        decreases names
      {
        var name :| name in names;
        var end := EndOf(name);
        BeyondStep(directory, names, name, after, chunks);
        if end > after {
          chunks := InsertByStart(chunks, directory[name], true);
        }
        names := names - {name};
      }
      assert directory - {} == directory;
      MarkerFirstIsSorted(chunks);
      if WellFormed(directory, h, ch) {
        FilteredListing(directory, chunks, after, h, ch);
      }
    }

    /** One page of the stream from `after` on; without overlaps `h` is the text whose pieces the files hold. */
    method Read(after: nat, limitBytes: nat, ghost h: Bytes, ghost ch: seq<Channel>)
      returns (result: ReadResult, ghost chunks: seq<DiskChunk>)
      requires Indexed(directory)
      ensures after >= firstCursor ==> Lists(Beyond(directory, after), chunks) && Sorted(chunks, true)
      ensures after >= firstCursor && WellFormed(directory, h, ch) ==> chunks == Pending(ListingOf(directory, h, ch), after)
      ensures result == if after < firstCursor then ScrollbackExpired(firstCursor)
                        else LogRange(Page(chunks, after, Clamp(limitBytes)))
      ensures WellFormed(directory, h, ch) ==>
                result == if after < firstCursor then ScrollbackExpired(firstCursor)
                          else LogRange(Page(Pending(ListingOf(directory, h, ch), after), after, Clamp(limitBytes)))
      ensures result.LogRange? ==>
                && TextTotal(result.chunks) <= (if limitBytes == 0 then 1 else if limitBytes > 1048576 then 1048576 else limitBytes)
                && (1 <= limitBytes <= 1048576 ==> result.chunks == Page(chunks, after, limitBytes))
    {
      chunks := [];
      if after < firstCursor {
        result := ScrollbackExpired(firstCursor);
        return;
      }
      var pending := ReadChunksFrom(after, h, ch);
      var page := CollectPage(pending, after, Clamp(limitBytes));
      chunks := pending;
      PageFitsLimit(pending, after, Clamp(limitBytes));
      result := LogRange(page);
    }

    static method CollectPage(chunks: seq<DiskChunk>, after: nat, limit: nat) returns (result: seq<LogChunk>)
      ensures result == Page(chunks, after, limit)
    {
      var remaining := limit;
      result := [];
      var k := 0;
      while k < |chunks| && remaining != 0
        invariant k <= |chunks|
        invariant Page(chunks, after, limit) == result + Page(chunks[k..], after, remaining)
        decreases |chunks| - k
      {
        var take, piece := TakeFrom(chunks[k], after, remaining);
        CollectStep(chunks, k, after, remaining, result);
        if take == 0 {
          break;
        }
        result := result + [piece];
        remaining := remaining - take;
        k := k + 1;
      }
    }

    /** How much of one chunk fits, and the piece that is returned for it. */
    static method TakeFrom(chunk: DiskChunk, after: nat, remaining: nat) returns (take: nat, piece: LogChunk)
      ensures take == Take(chunk, after, remaining) && piece == Piece(chunk, after, take)
    {
      var offset := 0;
      if !chunk.marker {
        offset := CharBoundaryAtOrAfter(chunk.text, if after < chunk.start then 0 else after - chunk.start);
      }
      var source := chunk.text[offset..];
      take := CharBoundaryAtOrBefore(source, remaining);
      var start := chunk.start + offset;
      var end := if take == |source| || chunk.marker then chunk.end else start + take;
      piece := LogChunk(start, end, chunk.channel, source[..take], chunk.marker);
    }

    // ---- Single operations ----

    method PutFile(name: FileName, chunk: DiskChunk) returns (ok: bool)
      modifies this`directory, this`budget
      ensures Ran(old(directory), old(budget), [Put(name, chunk)], directory, budget, ok)
    {
      RanOne(directory, budget, Put(name, chunk));
      ok := budget > 0;
      if ok {
        directory, budget := directory[name := chunk], budget - 1;
      }
    }

    method RemoveFile(name: FileName) returns (ok: bool)
      modifies this`directory, this`budget
      ensures Ran(old(directory), old(budget), [Remove(name)], directory, budget, ok)
    {
      RanOne(directory, budget, Remove(name));
      ok := budget > 0;
      if ok {
        directory, budget := directory - {name}, budget - 1;
      }
    }

    method WriteChunk(chunk: DiskChunk) returns (ok: bool)
      modifies this`directory, this`budget
      ensures Ran(old(directory), old(budget), [Put(ChunkFile(chunk.start, chunk.end, chunk.channel), chunk)], directory,
              budget, ok)
    {
      ok := PutFile(ChunkFile(chunk.start, chunk.end, chunk.channel), chunk);
    }

    // ---- Cutting out the middle ----

    /** Write a part of a trimmed chunk back, unless it is empty. */
    method WritePart(chunk: DiskChunk) returns (ok: bool)
      modifies this`directory, this`budget
      ensures Ran(old(directory), old(budget), PartPut(chunk), directory, budget, ok)
    {
      RanNone(directory, budget);
      ok := true;
      if |chunk.text| != 0 {
        ok := WriteChunk(chunk);
      }
    }

    /** Remove the middle [start + prefixLen, start + suffixStart) of one chunk file. */
    method TrimChunk(chunk: DiskChunk, prefixLen: nat, suffixStart: nat) returns (ok: bool)
      requires prefixLen <= suffixStart <= |chunk.text|
      modifies this`directory, this`budget
      ensures Ran(old(directory), old(budget), TrimEdits(chunk, prefixLen, suffixStart), directory, budget, ok)
    {
      var dropStart, dropEnd := chunk.start + prefixLen, chunk.start + suffixStart;
      var head := DiskChunk(chunk.start, dropStart, chunk.channel, chunk.text[..prefixLen], false);
      var tail := DiskChunk(dropEnd, chunk.end, chunk.channel, chunk.text[suffixStart..], false);
      ghost var d0, b0, all := directory, budget, TrimEdits(chunk, prefixLen, suffixStart);
      ghost var remove := [Remove(ChunkFile(chunk.start, chunk.end, chunk.channel))];
      assert all == remove + (PartPut(head) + PartPut(tail)) == (remove + PartPut(head)) + PartPut(tail);
      ok := RemoveFile(ChunkFile(chunk.start, chunk.end, chunk.channel));
      if !ok {
        RanStops(d0, b0, remove, directory, budget, all);
        return;
      }
      ghost var d1, b1 := directory, budget;
      ok := WritePart(head);
      RanThen(d0, b0, remove, d1, b1, PartPut(head), directory, budget, ok);
      if !ok {
        RanStops(d0, b0, remove + PartPut(head), directory, budget, all);
        return;
      }
      ghost var d2, b2 := directory, budget;
      ok := WritePart(tail);
      RanThen(d0, b0, remove + PartPut(head), d2, b2, PartPut(tail), directory, budget, ok);
    }

    static method CutPositions(text: Bytes, from: nat, to: nat) returns (prefixLen: nat, suffixStart: nat)
      requires from <= to
      ensures prefixLen == Floor(text, Min(from, |text|)) && suffixStart == Ceil(text, Min(to, |text|))
      ensures prefixLen <= suffixStart <= |text|
    {
      prefixLen := CharBoundaryAtOrBefore(text, from);
      suffixStart := CharBoundaryAtOrAfter(text, to);
      CutsInOrder(text, Min(from, |text|), Min(to, |text|));
    }

    /** Cut one chunk at the rounded positions. */
    method CutChunk(chunk: DiskChunk, tailStart: nat) returns (ok: bool, prefixLen: nat, suffixStart: nat)
      requires !Skips(chunk, retention, tailStart)
      modifies this`directory, this`budget
      ensures Ran(old(directory), old(budget), CutEdits(chunk, retention, tailStart), directory, budget, ok)
      ensures prefixLen == PrefixLen(chunk, retention) && suffixStart == SuffixStart(chunk, retention, tailStart)
    {
      prefixLen, suffixStart := CutPositions(chunk.text, Max(chunk.start, retention.headBytes) - chunk.start,
                                             Min(chunk.end, tailStart) - chunk.start);
      CutIsTrim(chunk, retention, tailStart);
      ok := TrimChunk(chunk, prefixLen, suffixStart);
    }

    /** One chunk of the pass: cut it where it reaches into the middle, and note what was dropped. */
    method DropFrom(chunk: DiskChunk, tailStart: nat, start: Option<nat>, end: nat)
      returns (ok: bool, droppedStart: Option<nat>, droppedEnd: nat)
      modifies this`directory, this`budget
      ensures Ran(old(directory), old(budget), CutEdits(chunk, retention, tailStart), directory, budget, ok)
      ensures var s := PassOver(PassState(old(directory), start, end), chunk, retention, tailStart);
              droppedStart == s.dropped && droppedEnd == s.droppedEnd
    {
      droppedStart, droppedEnd, ok := start, end, true;
      SkipsMakeNoEdits(PassState(directory, start, end), chunk, retention, tailStart);
      RanNone(directory, budget);
      var requestedStart, requestedEnd := Max(chunk.start, retention.headBytes), Min(chunk.end, tailStart);
      if !chunk.marker && requestedStart < requestedEnd {
        PassOverNotes(PassState(directory, start, end), chunk, retention, tailStart);
        var prefixLen, suffixStart;
        ok, prefixLen, suffixStart := CutChunk(chunk, tailStart);
        var dropStart, dropEnd := chunk.start + prefixLen, chunk.start + suffixStart;
        droppedStart := Some(if start.Some? then Min(start.value, dropStart) else dropStart);
        droppedEnd := Max(end, dropEnd);
      }
    }

    /** The loop of a truncating pass: cut every listed chunk that reaches into the middle. */
    method DropMiddle(chunks: seq<DiskChunk>, tailStart: nat) returns (ok: bool, droppedStart: Option<nat>, droppedEnd: nat)
      modifies this`directory, this`budget
      ensures Ran(old(directory), old(budget), PassEdits(chunks, retention, tailStart), directory, budget, ok)
      ensures ok ==> PassState(directory, droppedStart, droppedEnd) == Pass(old(directory), chunks, retention, tailStart)
    {
      ghost var before, limit := directory, budget;
      droppedStart, droppedEnd, ok := None, 0, true;
      RanNone(directory, budget);
      for k := 0 to |chunks|
        invariant Ran(before, limit, PassEdits(chunks[..k], retention, tailStart), directory, budget, true)
        invariant PassState(directory, droppedStart, droppedEnd) == Pass(before, chunks[..k], retention, tailStart)
      {
        ghost var d, b := directory, budget;
        assert chunks[..k + 1][..k] == chunks[..k];
        ok, droppedStart, droppedEnd := DropFrom(chunks[k], tailStart, droppedStart, droppedEnd);
        PassEditsSnoc(chunks, k, retention, tailStart);
        RanThen(before, limit, PassEdits(chunks[..k], retention, tailStart), d, b, CutEdits(chunks[k], retention, tailStart),
                directory, budget, ok);
        if !ok {
          PassEditsGrow(chunks, k + 1, retention, tailStart);
          RanStops(before, limit, PassEdits(chunks[..k + 1], retention, tailStart), directory, budget,
                   PassEdits(chunks, retention, tailStart));
          return;
        }
        RanAll(d, b, CutEdits(chunks[k], retention, tailStart), directory, budget);
        CutIsPassOver(Pass(before, chunks[..k], retention, tailStart), chunks[k], retention, tailStart);
      }
      ok := true;
      assert chunks[..|chunks|] == chunks;
    }

    /** Put the marker in place of an old one. */
    method WriteMarker(droppedStart: Option<nat>, droppedEnd: nat, ghost s: PassState) returns (ok: bool)
      requires droppedStart == s.dropped && droppedEnd == s.droppedEnd
      modifies this`directory, this`budget
      ensures Ran(old(directory), old(budget), MarkerEdits(s), directory, budget, ok)
    {
      RanNone(directory, budget);
      ok := true;
      if droppedStart.Some? {
        ghost var d0, b0 := directory, budget;
        var marker := Marker(droppedStart.value, droppedEnd);
        assert MarkerEdits(s) == [Remove(MarkerFile)] + [Put(MarkerFile, marker)];
        ok := RemoveFile(MarkerFile);
        if !ok {
          RanStops(d0, b0, [Remove(MarkerFile)], directory, budget, MarkerEdits(s));
          return;
        }
        ghost var d1, b1 := directory, budget;
        ok := PutFile(MarkerFile, marker);
        RanThen(d0, b0, [Remove(MarkerFile)], d1, b1, [Put(MarkerFile, marker)], directory, budget, ok);
      }
    }

    /** Remove everything between the retained head and tail and name the removed range. */
    method Truncate(next: nat) returns (ok: bool, ghost cs: seq<DiskChunk>)
      requires retention.Valid() && Indexed(directory)
      modifies this`directory, this`budget
      ensures Lists(old(directory), cs)
      ensures Ran(old(directory), old(budget), RetentionEdits(old(directory), cs, retention, Minus(next,
              retention.TailBytes())),
                  directory, budget, ok)
    {
      ghost var d0, b0, tail := directory, budget, Minus(next, retention.TailBytes());
      var chunks := ReadChunks();
      cs := chunks;
      var droppedStart, droppedEnd;
      ok, droppedStart, droppedEnd := DropMiddle(chunks, Minus(next, retention.TailBytes()));
      if !ok {
        RanStops(d0, b0, PassEdits(chunks, retention, tail), directory, budget, RetentionEdits(d0, chunks, retention, tail));
        return;
      }
      ghost var d1, b1, s := directory, budget, Pass(d0, chunks, retention, tail);
      ok := WriteMarker(droppedStart, droppedEnd, s);
      RanThen(d0, b0, PassEdits(chunks, retention, tail), d1, b1, MarkerEdits(s), directory, budget, ok);
    }

    /** The row values the directory measures to. */
    method Measure(next: nat, total: nat) returns (first: nat, retained: nat, cut: bool, ghost measured: seq<DiskChunk>)
      requires Indexed(directory)
      ensures Lists(directory, measured) && Row(first, next, retained, total, cut) == Measured(measured, next, total, retention)
      ensures cut <==> total > retention.rawLimitBytes
      ensures retained == |Payload(measured)| + (if cut && MarkerFile in directory then |directory[MarkerFile].text| else 0)
      ensures forall n | n in directory :: first <= directory[n].start
      ensures if directory == map[] then first == (if cut then next else 0)
              else exists n :: n in directory && directory[n].start == first
    {
      var chunks := ReadChunks();
      measured := chunks;
      cut := total > retention.rawLimitBytes;
      first := if chunks != [] then chunks[0].start else if cut then next else 0;
      retained := TextLen(chunks, cut);
      RetainedLength(directory, chunks, cut);
      FirstIsLeast(directory, chunks);
    }

    /** `cs` and `measured` are the listings that were read. */
    method EnforceRetention(next: nat, total: nat)
      returns (ok: bool, first: nat, retained: nat, cut: bool, ghost cs: seq<DiskChunk>, ghost measured: seq<DiskChunk>)
      requires retention.Valid() && Indexed(directory)
      modifies this`directory, this`budget
      ensures Lists(old(directory), cs)
      ensures var todo := RetentionEdits(old(directory), cs, retention, Minus(next, retention.TailBytes()));
              Ran(old(directory), old(budget), if total <= retention.rawLimitBytes then [] else todo, directory, budget, ok)
      ensures ok ==> Lists(directory, measured)
                     && Row(first, next, retained, total, cut) == Measured(measured, next, total, retention)
      ensures ok ==> (cut <==> total > retention.rawLimitBytes)
      ensures ok ==> retained == |Payload(measured)|
                                 + (if cut && MarkerFile in directory then |directory[MarkerFile].text| else 0)
    {
      ok, first, retained, cut, cs, measured := true, 0, 0, false, SomeListing(directory), [];
      RanNone(directory, budget);
      if total > retention.rawLimitBytes {
        ghost var d0, b0 := directory, budget;
        ok, cs := Truncate(next);
        if !ok {
          return;
        }
        RanAll(d0, b0, RetentionEdits(d0, cs, retention, Minus(next, retention.TailBytes())), directory, budget);
        SafeRetention(d0, cs, retention, Minus(next, retention.TailBytes()));
        SafeKeeps(d0, RetentionEdits(d0, cs, retention, Minus(next, retention.TailBytes())));
      }
      first, retained, cut, measured := Measure(next, total);
    }

    // ---- Appending ----

    /** Write `text` in chunks from the next cursor on. */
    method WriteParts(channel: Channel, text: Bytes) returns (ok: bool, cursor: nat)
      requires IsText(text)
      modifies this`directory, this`budget
      ensures Ran(old(directory), old(budget), PartEdits(channel, Split(text, CHUNK_BYTES), nextCursor), directory,
              budget, ok)
      ensures ok ==> cursor == nextCursor + |text|
    {
      ghost var before, limit := directory, budget;
      var parts := SplitText(text, CHUNK_BYTES);
      cursor, ok := nextCursor, true;
      RanNone(directory, budget);
      for k := 0 to |parts|
        invariant cursor == nextCursor + |Flatten(parts[..k])|
        invariant Ran(before, limit, PartEdits(channel, parts[..k], nextCursor), directory, budget, true)
      {
        ghost var d, b := directory, budget;
        var start, part := cursor, parts[k];
        cursor := cursor + |part|;
        ok := WriteChunk(DiskChunk(start, cursor, channel, part, false));
        PartRan(before, limit, channel, parts, k, nextCursor, start, d, b, directory, budget, ok);
        if !ok {
          return;
        }
      }
      ok := true;
      assert parts[..|parts|] == parts;
      SplitLosesNothing(text, CHUNK_BYTES);
    }

    method UpdateRow(first: nat, next: nat, retained: nat, total: nat, cut: bool) returns (ok: bool)
      modifies this`firstCursor, this`nextCursor, this`retainedBytes, this`totalBytes, this`truncated, this`budget
      ensures ok <==> RowFits(Row(first, next, retained, total, cut)) && old(budget) > 0
      ensures State().row == if ok then Row(first, next, retained, total, cut) else old(State()).row
      ensures budget == if ok then old(budget) - 1 else old(budget)
    {
      ok := RowFits(Row(first, next, retained, total, cut)) && budget > 0;
      if ok {
        firstCursor, nextCursor, retainedBytes, totalBytes, truncated := first, next, retained, total, cut;
        budget := budget - 1;
      }
    }

    /** The second half of an append to `s` whose text is written: cut, and measure what is left. */
    method CutFiles(channel: Channel, ghost inputLength: nat, ghost text: Bytes, cursor: nat, total: nat,
                    ghost s: Stream, ghost b0: nat)
      returns (ok: bool, row: Row, ghost cs: seq<DiskChunk>, ghost measured: seq<DiskChunk>)
      requires retention.Valid() && IsText(text) && cursor == |s.h| + |text| < U64_BOUND && Indexed(s.d) && Indexed(directory)
      requires total == s.row.totalBytes + inputLength > retention.rawLimitBytes
      requires directory == Written(s.d, channel, Split(text, CHUNK_BYTES), |s.h|)
      requires Ran(s.d, b0, PartEdits(channel, Split(text, CHUNK_BYTES), |s.h|), directory, budget, true)
      modifies this`directory, this`budget
      ensures MayRead(s, retention, channel, inputLength, text, cs, measured)
      ensures Ran(s.d, b0, EditsOver(s, retention, channel, inputLength, text, cs), directory, budget, ok)
      ensures ok ==> row == AfterOver(s, retention, channel, inputLength, text, cs, measured).row
    {
      ghost var b1 := budget;
      var first, retained, cut;
      ghost var listed;
      ok, first, retained, cut, cs, listed := EnforceRetention(cursor, total);
      CuttingRan(s, retention, channel, inputLength, text, cs, b0, b1, directory, budget, ok);
      measured := CuttingRead(s, retention, channel, inputLength, text, cs, b0, directory, budget, ok, listed);
      row := Row(first, cursor, retained, total, cut);
    }

    /** The file operations of an append: write the text, and cut once the limit is passed. */
    method ChangeFiles(channel: Channel, inputLength: nat, text: Bytes)
      returns (ok: bool, row: Row, ghost cs: seq<DiskChunk>, ghost measured: seq<DiskChunk>)
      requires retention.Valid() && Consistent() && IsText(text) && |text| < I64_BOUND
      modifies this`directory, this`budget
      ensures old(MayRead(State(), retention, channel, inputLength, text, cs, measured))
      ensures Ran(old(directory), old(budget), old(EditsOver(State(), retention, channel, inputLength, text, cs)),
              directory, budget, ok)
      ensures ok ==> row == old(AfterOver(State(), retention, channel, inputLength, text, cs, measured)).row
    {
      ghost var s, b0 := State(), budget;
      ghost var writing := PartEdits(channel, Split(text, CHUNK_BYTES), nextCursor);
      var total := totalBytes + inputLength;
      row := Row(0, 0, 0, 0, false);
      cs, measured := AnyListings(s, retention, channel, inputLength, text);
      var cursor;
      ok, cursor := WriteParts(channel, text);
      if !ok {
        WritingStopped(s, retention, channel, inputLength, text, cs, b0, directory, budget);
        return;
      }
      RanAll(s.d, b0, writing, directory, budget);
      PartsWrite(s.d, channel, Split(text, CHUNK_BYTES), nextCursor);
      if total <= retention.rawLimitBytes {
        NothingToCut(s, retention, channel, inputLength, text, cs, measured);
        row := Row(0, cursor, retainedBytes + |text|, total, false);
        return;
      }
      ok, row, cs, measured := CutFiles(channel, inputLength, text, cursor, total, s, b0);
    }

    /** The part of an append behind its checks; `cs` and `measured` are the listings that it reads. */
    method Store(channel: Channel, inputLength: nat, text: Bytes)
      returns (result: AppendResult, ghost cs: seq<DiskChunk>, ghost measured: seq<DiskChunk>)
      requires retention.Valid() && Consistent() && IsText(text) && |text| < I64_BOUND
      modifies this`directory, this`firstCursor, this`nextCursor, this`retainedBytes, this`totalBytes, this`truncated,
               this`budget, this`history, this`channels
      ensures Consistent()
      ensures old(MayRead(State(), retention, channel, inputLength, text, cs, measured))
      ensures Outcome(result, State())
           == old(OutcomeOf(State(), EditsOver(State(), retention, channel, inputLength, text, cs),
                            AfterOver(State(), retention, channel, inputLength, text, cs, measured), budget))
      ensures result == Failed && budget > 0 ==>
                RowExceeds(old(AfterOver(State(), retention, channel, inputLength, text, cs, measured)).row)
      ensures result == Appended ==> Extends(old(State()), retention, channel, inputLength, text, measured, State())
    {
      ghost var s, d0, b0 := State(), directory, budget;
      var ok, row;
      ok, row, cs, measured := ChangeFiles(channel, inputLength, text);
      ghost var all := EditsOver(s, retention, channel, inputLength, text, cs);
      AppendIndexed(s, retention, channel, inputLength, text, cs, Min(b0, |all|));
      if !ok {
        return Failed, cs, measured;
      }
      RanAll(d0, b0, all, directory, budget);
      EditsAreOver(s, retention, channel, inputLength, text, cs, measured);
      OverExtends(s, retention, channel, inputLength, text, cs, measured);
      assert all[..|all|] == all;
      ok := UpdateRow(row.firstCursor, row.nextCursor, row.retainedBytes, row.totalBytes, row.truncated);
      if !ok {
        return Failed, cs, measured;
      }
      history, channels := history + text, channels + seq(|text|, _ => channel);
      return if budget > 0 then Appended else Failed, cs, measured;
    }

    /** Append the redacted, decoded form `text` of `input`. A stream without overlapping files stays one,
        and one that holds exactly what retention keeps still does when the append succeeds. */
    method Append(channel: Channel, input: Bytes, text: Bytes)
      returns (result: AppendResult, ghost cs: seq<DiskChunk>, ghost measured: seq<DiskChunk>)
      requires Consistent() && IsText(text) && |text| < I64_BOUND
      modifies this
      ensures Consistent() && closed == old(closed)
      ensures !retention.Valid() ==> result == InvalidRetention
      ensures retention.Valid() && input == [] ==> result == Appended
      ensures retention.Valid() && input != [] && old(closed) ==> result == ResourceBusy
      ensures if retention.Valid() && input != [] && !old(closed)
              then && old(MayRead(State(), retention, channel, |input|, text, cs, measured))
                   && Outcome(result, State())
                      == old(OutcomeOf(State(), EditsOver(State(), retention, channel, |input|, text, cs),
                                       AfterOver(State(), retention, channel, |input|, text, cs, measured), budget))
              else State() == old(State())
      ensures retention.Valid() && input != [] && !old(closed) && old(Ready(State(), channel, text))
              ==> Outcome(result, State())
                  == old(OutcomeOf(State(), AppendEdits(State(), retention, channel, |input|, text),
                                   AfterAppend(State(), retention, channel, |input|, text), budget))
      ensures old(Valid()) && result != Failed ==> Valid()
      ensures result == InvalidRetention <==> retention.rawLimitBytes == 0 || retention.headBytes >= retention.rawLimitBytes
      ensures result == Appended && input != [] ==>
                Extends(old(State()), retention, channel, |input|, text, measured, State())
      ensures result == Failed && budget > 0 ==>
                RowExceeds(old(AfterOver(State(), retention, channel, |input|, text, cs, measured)).row)
    {
      cs, measured := [], [];
      if !retention.Valid() {
        return InvalidRetention, cs, measured;
      }
      if input == [] {
        return Appended, cs, measured;
      }
      if closed {
        return ResourceBusy, cs, measured;
      }
      ghost var s := State();
      result, cs, measured := Store(channel, |input|, text);
      if Ready(s, channel, text) {
        OverIsTheAppend(s, retention, channel, |input|, text, cs, measured);
      }
      if SoundStream(s, retention) {
        SoundIsReady(s, retention, channel, text);
        AppendIsSound(s, retention, channel, |input|, text);
      }
    }
  }
}
