/** The chunk directory of one log stream: what its files hold relative to the text
    appended so far, and how single file operations change that. */
module LogDirectory {
  import opened Common
  import opened Text
  import opened LogNames

  type Directory = map<FileName, DiskChunk>

  predicate Apart(a: DiskChunk, b: DiskChunk) {
    a.end <= b.start || b.end <= a.start
  }

  /** The chunk is a nonempty run of whole characters of `h`, all from one channel. */
  ghost predicate Faithful(c: DiskChunk, h: Bytes, ch: seq<Channel>) {
    && !c.marker && c.start < c.end <= |h| == |ch|
    && IsBoundary(h, c.start) && IsBoundary(h, c.end)
    && c.text == h[c.start..c.end]
    && forall i | c.start <= i < c.end :: ch[i] == c.channel
  }

  /** A truncation marker: a nonempty range, and a text of one-byte characters. */
  ghost predicate MarkerOk(c: DiskChunk, n: nat) {
    c.marker && c.start < c.end <= n && c.text != [] && forall i | 0 <= i < |c.text| :: !Continuation(c.text[i])
  }

  ghost predicate EntryOk(name: FileName, c: DiskChunk, h: Bytes, ch: seq<Channel>) {
    if name == MarkerFile then
      MarkerOk(c, |h|)
    else
      Faithful(c, h, ch) && name == NameOf(c)
  }

  function NameOf(c: DiskChunk): FileName {
    if c.marker then MarkerFile else ChunkFile(c.start, c.end, c.channel)
  }

  ghost predicate WellFormed(d: Directory, h: Bytes, ch: seq<Channel>) {
    && |h| == |ch| < U64_BOUND
    && (forall n | n in d :: EntryOk(n, d[n], h, ch))
    && (forall m, n | m in d && n in d && m != n :: Apart(d[m], d[n]))
  }

  ghost predicate HoldsAt(d: Directory, n: FileName, i: nat) {
    n in d && !d[n].marker && d[n].start <= i < d[n].end
  }

  /** Cursor position `i` is on disk, in a chunk other than the marker. */
  ghost predicate Covers(d: Directory, i: nat) {
    exists n :: HoldsAt(d, n, i)
  }

  lemma AddChunk(d: Directory, c: DiskChunk, h: Bytes, ch: seq<Channel>)
    requires WellFormed(d, h, ch) && Faithful(c, h, ch)
    requires forall n | n in d :: Apart(d[n], c)
    ensures NameOf(c) !in d && NameOf(c) != MarkerFile
    ensures WellFormed(d[NameOf(c) := c], h, ch)
    ensures forall i: nat :: Covers(d[NameOf(c) := c], i) <==> Covers(d, i) || c.start <= i < c.end
  {
    var name, e := NameOf(c), d[NameOf(c) := c];
    assert forall n | n in d && n == name :: EntryOk(n, d[n], h, ch) && !Apart(d[n], c);
    forall i: nat
      ensures Covers(e, i) <==> Covers(d, i) || c.start <= i < c.end
    {
      if Covers(d, i) {
        var n :| HoldsAt(d, n, i);
        assert HoldsAt(e, n, i);
      }
      if c.start <= i < c.end {
        assert HoldsAt(e, name, i);
      }
      if Covers(e, i) {
        var n :| HoldsAt(e, n, i);
        assert n == name || HoldsAt(d, n, i);
      }
    }
  }

  lemma RemoveChunk(d: Directory, c: DiskChunk, h: Bytes, ch: seq<Channel>)
    requires WellFormed(d, h, ch) && NameOf(c) in d && d[NameOf(c)] == c && !c.marker
    ensures WellFormed(d - {NameOf(c)}, h, ch)
    ensures forall i: nat :: Covers(d - {NameOf(c)}, i) <==> Covers(d, i) && !(c.start <= i < c.end)
    ensures forall n | n in d - {NameOf(c)} :: Apart(d[n], c)
  {
    var e := d - {NameOf(c)};
    forall i: nat
      ensures Covers(e, i) <==> Covers(d, i) && !(c.start <= i < c.end)
    {
      if Covers(d, i) && !(c.start <= i < c.end) {
        var n :| HoldsAt(d, n, i);
        assert HoldsAt(e, n, i);
      }
      if Covers(e, i) {
        var n :| HoldsAt(e, n, i);
        assert HoldsAt(d, n, i) && Apart(d[n], c);
      }
    }
  }

  lemma ReplaceMarker(d: Directory, m: DiskChunk, start: nat, end: nat, h: Bytes, ch: seq<Channel>)
    requires WellFormed(d, h, ch) && MarkerOk(m, |h|) && m.start == start && m.end == end
    requires forall i: nat | start <= i < end :: !Covers(d, i)
    ensures WellFormed(d[MarkerFile := m], h, ch)
    ensures forall i: nat :: Covers(d[MarkerFile := m], i) <==> Covers(d, i)
  {
    var e := d[MarkerFile := m];
    forall n | n in d && n != MarkerFile
      ensures Apart(d[n], m)
    {
      var c := d[n];
      if !Apart(c, m) {
        var i := if c.start < start then start else c.start;
        assert EntryOk(n, c, h, ch);
        assert HoldsAt(d, n, i);
        assert Covers(d, i);
        assert false;
      }
    }
    forall i: nat
      ensures Covers(e, i) <==> Covers(d, i)
    {
      if Covers(d, i) {
        var n :| HoldsAt(d, n, i);
        assert HoldsAt(e, n, i);
      }
      if Covers(e, i) {
        var n :| HoldsAt(e, n, i);
        assert HoldsAt(d, n, i);
      }
    }
  }

  lemma CoversInside(d: Directory, h: Bytes, ch: seq<Channel>, i: nat)
    requires WellFormed(d, h, ch) && Covers(d, i)
    ensures i < |h|
  {
    var n :| HoldsAt(d, n, i);
    assert EntryOk(n, d[n], h, ch);
  }

  lemma ExtendHistory(d: Directory, h: Bytes, ch: seq<Channel>, t: Bytes, tc: seq<Channel>)
    requires WellFormed(d, h, ch) && IsText(t) && |t| == |tc| && |h| + |t| < U64_BOUND
    ensures WellFormed(d, h + t, ch + tc)
  {
    AppendBoundaries(h, t);
    forall n | n in d
      ensures EntryOk(n, d[n], h + t, ch + tc)
    {
      assert EntryOk(n, d[n], h, ch);
      var c := d[n];
      assert (h + t)[c.start..c.end] == h[c.start..c.end];
    }
  }

  function WithPart(d: Directory, c: DiskChunk): Directory {
    if c.text == [] then d else d[ChunkFile(c.start, c.end, c.channel) := c]
  }

  function HeadPart(c: DiskChunk, prefixLen: nat): DiskChunk
    requires prefixLen <= |c.text|
  {
    DiskChunk(c.start, c.start + prefixLen, c.channel, c.text[..prefixLen], false)
  }

  function TailPart(c: DiskChunk, suffixStart: nat): DiskChunk
    requires suffixStart <= |c.text|
  {
    DiskChunk(c.start + suffixStart, c.end, c.channel, c.text[suffixStart..], false)
  }

  /** `chunk` with its middle [start + prefixLen, start + suffixStart) removed. */
  function Trimmed(d: Directory, chunk: DiskChunk, prefixLen: nat, suffixStart: nat): Directory
    requires prefixLen <= suffixStart <= |chunk.text|
  {
    var removed := d - {ChunkFile(chunk.start, chunk.end, chunk.channel)};
    WithPart(WithPart(removed, HeadPart(chunk, prefixLen)), TailPart(chunk, suffixStart))
  }

  lemma AddPart(d: Directory, c: DiskChunk, h: Bytes, ch: seq<Channel>)
    requires WellFormed(d, h, ch)
    requires (c.start == c.end && c.text == []) || Faithful(c, h, ch)
    requires c.text != [] ==> forall n | n in d :: Apart(d[n], c)
    ensures WellFormed(WithPart(d, c), h, ch)
    ensures forall i: nat :: Covers(WithPart(d, c), i) <==> (Covers(d, i) || c.start <= i < c.end)
    ensures forall n | n in d :: n in WithPart(d, c) && WithPart(d, c)[n] == d[n]
    ensures forall n | n in WithPart(d, c) :: n in d || (n == NameOf(c) && WithPart(d, c)[n] == c)
  {
    if c.text != [] {
      AddChunk(d, c, h, ch);
    }
  }

  lemma PartsFaithful(c: DiskChunk, prefixLen: nat, suffixStart: nat, h: Bytes, ch: seq<Channel>)
    requires Faithful(c, h, ch) && prefixLen < suffixStart <= |c.text|
    requires IsBoundary(h, c.start + prefixLen) && IsBoundary(h, c.start + suffixStart)
    ensures prefixLen > 0 ==> Faithful(HeadPart(c, prefixLen), h, ch)
    ensures suffixStart < |c.text| ==> Faithful(TailPart(c, suffixStart), h, ch)
  {
    assert c.text[..prefixLen] == h[c.start..c.start + prefixLen];
    assert c.text[suffixStart..] == h[c.start + suffixStart..c.end];
  }

  /** Trimming a chunk leaves a well-formed directory with every other file in place. */
  lemma TrimmedKeeps(d: Directory, c: DiskChunk, prefixLen: nat, suffixStart: nat, h: Bytes, ch: seq<Channel>)
    requires WellFormed(d, h, ch) && NameOf(c) in d && d[NameOf(c)] == c && !c.marker
    requires prefixLen < suffixStart <= |c.text|
    requires IsBoundary(h, c.start + prefixLen) && IsBoundary(h, c.start + suffixStart)
    ensures var e := Trimmed(d, c, prefixLen, suffixStart);
            && WellFormed(e, h, ch)
            && (MarkerFile in e ==> MarkerFile in d)
            && (forall n | n in d && n != NameOf(c) :: n in e && e[n] == d[n])
  {
    assert EntryOk(NameOf(c), c, h, ch);
    PartsFaithful(c, prefixLen, suffixStart, h, ch);
    RemoveChunk(d, c, h, ch);
    var removed, head, tail := d - {NameOf(c)}, HeadPart(c, prefixLen), TailPart(c, suffixStart);
    AddPart(removed, head, h, ch);
    AddPart(WithPart(removed, head), tail, h, ch);
  }

  /** Trimming uncovers exactly the middle. */
  lemma TrimmedCovers(d: Directory, c: DiskChunk, prefixLen: nat, suffixStart: nat, h: Bytes, ch: seq<Channel>)
    requires WellFormed(d, h, ch) && NameOf(c) in d && d[NameOf(c)] == c && !c.marker
    requires prefixLen < suffixStart <= |c.text|
    requires IsBoundary(h, c.start + prefixLen) && IsBoundary(h, c.start + suffixStart)
    ensures var e := Trimmed(d, c, prefixLen, suffixStart);
            forall i: nat :: Covers(e, i) <==> (Covers(d, i) && !(c.start + prefixLen <= i < c.start + suffixStart))
  {
    assert EntryOk(NameOf(c), c, h, ch);
    PartsFaithful(c, prefixLen, suffixStart, h, ch);
    RemoveChunk(d, c, h, ch);
    var removed, head, tail := d - {NameOf(c)}, HeadPart(c, prefixLen), TailPart(c, suffixStart);
    var withHead := WithPart(removed, head);
    AddPart(removed, head, h, ch);
    AddPart(withHead, tail, h, ch);
    var e := WithPart(withHead, tail);
    forall i: nat
      ensures Covers(e, i) <==> (Covers(d, i) && !(c.start + prefixLen <= i < c.start + suffixStart))
    {
      assert c.start <= i < c.end ==> HoldsAt(d, NameOf(c), i);
      assert Covers(removed, i) <==> (Covers(d, i) && !(c.start <= i < c.end));
      assert Covers(withHead, i) <==> (Covers(removed, i) || head.start <= i < head.end);
    }
  }

  /** Files end at or before `at`, and everything in [from, at) is on disk beside what `d` covered. */
  ghost predicate WrittenTo(d: Directory, e: Directory, from: nat, at: nat, h: Bytes, ch: seq<Channel>) {
    && WellFormed(e, h, ch)
    && (forall n | n in e :: e[n].end <= at)
    && (MarkerFile in e <==> MarkerFile in d)
    && (forall i: nat :: Covers(e, i) <==> (Covers(d, i) || from <= i < at))
  }

  lemma WriteNext(d: Directory, e: Directory, from: nat, c: DiskChunk, h: Bytes, ch: seq<Channel>)
    requires WrittenTo(d, e, from, c.start, h, ch) && from <= c.start && Faithful(c, h, ch)
    ensures WrittenTo(d, e[NameOf(c) := c], from, c.end, h, ch)
  {
    AddChunk(e, c, h, ch);
    var f := e[NameOf(c) := c];
    forall n | n in f
      ensures f[n].end <= c.end
    {
      assert n in e || f[n] == c;
    }
    forall i: nat
      ensures Covers(f, i) <==> (Covers(d, i) || from <= i < c.end)
    {
      assert Covers(e, i) <==> (Covers(d, i) || from <= i < c.start);
    }
  }

  // ---- Listings: the directory's chunks in cursor order ----

  /** The file is named by its content, which fills its range; cursors have 64 bits. */
  predicate Named(n: FileName, c: DiskChunk) {
    n == NameOf(c) && c.start < c.end < U64_BOUND && (!c.marker ==> |c.text| == c.end - c.start)
  }

  /** What holds even when files overlap. */
  ghost predicate Indexed(d: Directory) {
    forall n | n in d :: Named(n, d[n])
  }

  lemma WellFormedIsIndexed(d: Directory, h: Bytes, ch: seq<Channel>)
    requires WellFormed(d, h, ch)
    ensures Indexed(d)
  {
    forall n | n in d
      ensures Named(n, d[n])
    {
      assert EntryOk(n, d[n], h, ch);
    }
  }

  predicate ByStart(cs: seq<DiskChunk>) {
    forall i, j | 0 <= i < j < |cs| :: cs[i].start < cs[j].start
  }

  ghost predicate Holding(d: Directory, cs: seq<DiskChunk>) {
    && (forall n | n in d :: d[n] in cs)
    && (forall c | c in cs :: NameOf(c) in d && d[NameOf(c)] == c)
  }

  ghost predicate Listing(d: Directory, cs: seq<DiskChunk>) {
    ByStart(cs) && Holding(d, cs)
  }

  /** The sort key: the start cursor, and where files are read for a page, the marker first. */
  function Key(c: DiskChunk, markerFirst: bool): int {
    2 * c.start + (if markerFirst && c.marker then 0 else 1)
  }

  predicate Sorted(cs: seq<DiskChunk>, markerFirst: bool) {
    forall i, j | 0 <= i < j < |cs| :: Key(cs[i], markerFirst) <= Key(cs[j], markerFirst) && cs[i] != cs[j]
  }

  /** `cs` are the files of the directory, each once; files that start together come in any order. */
  ghost predicate Lists(d: Directory, cs: seq<DiskChunk>) {
    Sorted(cs, false) && Holding(d, cs)
  }

  /** Ordered insertion: a directory is read in no particular order, so sorting what was read is
      inserting each entry at its place. */
  function InsertByStart(cs: seq<DiskChunk>, c: DiskChunk, markerFirst: bool): seq<DiskChunk> {
    if cs == [] then [c]
    else if Key(c, markerFirst) < Key(cs[0], markerFirst) then [c] + cs
    else [cs[0]] + InsertByStart(cs[1..], c, markerFirst)
  }

  lemma {:induction false} InsertMembers(cs: seq<DiskChunk>, c: DiskChunk, markerFirst: bool)
    ensures forall x :: x in InsertByStart(cs, c, markerFirst) <==> x in cs || x == c
  {
    if |cs| > 0 && Key(c, markerFirst) >= Key(cs[0], markerFirst) {
      InsertMembers(cs[1..], c, markerFirst);
      assert cs == [cs[0]] + cs[1..];
    }
  }

  lemma ConsSorted(c: DiskChunk, rest: seq<DiskChunk>, markerFirst: bool)
    requires Sorted(rest, markerFirst) && forall x | x in rest :: Key(c, markerFirst) <= Key(x, markerFirst) && x != c
    ensures Sorted([c] + rest, markerFirst)
  {
    forall i, j | 0 <= i < j < |[c] + rest|
      ensures Key(([c] + rest)[i], markerFirst) <= Key(([c] + rest)[j], markerFirst) && ([c] + rest)[i] != ([c] + rest)[j]
    {
      assert ([c] + rest)[j] == rest[j - 1] && rest[j - 1] in rest;
    }
  }

  lemma TailSorted(cs: seq<DiskChunk>, markerFirst: bool)
    requires Sorted(cs, markerFirst) && cs != []
    ensures Sorted(cs[1..], markerFirst) && cs == [cs[0]] + cs[1..]
    ensures forall x | x in cs[1..] :: x in cs && Key(cs[0], markerFirst) <= Key(x, markerFirst) && x != cs[0]
  {
  }

  lemma {:induction false} InsertKeepsOrder(cs: seq<DiskChunk>, c: DiskChunk, markerFirst: bool)
    requires Sorted(cs, markerFirst) && c !in cs
    ensures Sorted(InsertByStart(cs, c, markerFirst), markerFirst)
  {
    if |cs| > 0 {
      TailSorted(cs, markerFirst);
      if Key(c, markerFirst) < Key(cs[0], markerFirst) {
        ConsSorted(c, cs, markerFirst);
      } else {
        InsertKeepsOrder(cs[1..], c, markerFirst);
        InsertMembers(cs[1..], c, markerFirst);
        ConsSorted(cs[0], InsertByStart(cs[1..], c, markerFirst), markerFirst);
      }
    }
  }

  /** Listing one file more. */
  lemma InsertLists(d: Directory, n: FileName, cs: seq<DiskChunk>, markerFirst: bool)
    requires n in d && n == NameOf(d[n]) && Sorted(cs, markerFirst) && Holding(d - {n}, cs)
    ensures var r := InsertByStart(cs, d[n], markerFirst); Sorted(r, markerFirst) && Holding(d, r)
  {
    var e, r := d - {n}, InsertByStart(cs, d[n], markerFirst);
    assert d[n] !in cs;
    InsertKeepsOrder(cs, d[n], markerFirst);
    InsertMembers(cs, d[n], markerFirst);
    assert forall m | m in d :: m == n || (m in e && e[m] == d[m]);
    assert forall x | x in r :: x == d[n] || (NameOf(x) in e && e[NameOf(x)] == x);
  }

  ghost function SomeListing(d: Directory): (cs: seq<DiskChunk>)
    requires Indexed(d)
    ensures Lists(d, cs)
    decreases |d|
  {
    if d == map[] then []
    else
      var n :| n in d;
      assert (d - {n}).Keys == d.Keys - {n} && Named(n, d[n]);
      var cs := SomeListing(d - {n});
      InsertLists(d, n, cs, false);
      InsertByStart(cs, d[n], false)
  }

  lemma FirstIsLeast(d: Directory, cs: seq<DiskChunk>)
    requires Lists(d, cs)
    ensures forall n | n in d :: cs != [] && cs[0].start <= d[n].start
    ensures if d == map[] then cs == [] else cs != [] && exists n :: n in d && d[n].start == cs[0].start
  {
    forall n | n in d
      ensures cs != [] && cs[0].start <= d[n].start
    {
      var k :| 0 <= k < |cs| && cs[k] == d[n];
      assert k > 0 ==> Key(cs[0], false) <= Key(cs[k], false);
    }
    assert |cs| > 0 ==> cs[0] in cs && NameOf(cs[0]) in d;
    assert d != map[] ==> exists n :: n in d;
  }

  /** Without overlaps no two files start together. */
  lemma ListsInOrder(d: Directory, cs: seq<DiskChunk>, h: Bytes, ch: seq<Channel>)
    requires WellFormed(d, h, ch) && Lists(d, cs)
    ensures Listing(d, cs)
  {
    forall i, j | 0 <= i < j < |cs|
      ensures cs[i].start < cs[j].start
    {
      assert cs[i] in cs && cs[j] in cs && Key(cs[i], false) <= Key(cs[j], false);
      assert EntryOk(NameOf(cs[i]), cs[i], h, ch) && EntryOk(NameOf(cs[j]), cs[j], h, ch);
      assert Apart(d[NameOf(cs[i])], d[NameOf(cs[j])]);
    }
  }

  /** The directory's chunks in cursor order. */
  ghost function ListingOf(d: Directory, h: Bytes, ch: seq<Channel>): (cs: seq<DiskChunk>)
    requires WellFormed(d, h, ch)
    ensures Listing(d, cs)
  {
    WellFormedIsIndexed(d, h, ch);
    ListsInOrder(d, SomeListing(d), h, ch);
    SomeListing(d)
  }

  lemma ListingInOrder(d: Directory, cs: seq<DiskChunk>, h: Bytes, ch: seq<Channel>)
    requires WellFormed(d, h, ch) && Listing(d, cs)
    ensures forall i | 0 <= i < |cs| :: EntryOk(NameOf(cs[i]), cs[i], h, ch) && cs[i].start < cs[i].end <= |h|
    ensures forall i, j | 0 <= i < j < |cs| :: cs[i].end <= cs[j].start
  {
    forall i | 0 <= i < |cs|
      ensures EntryOk(NameOf(cs[i]), cs[i], h, ch) && cs[i].start < cs[i].end <= |h|
    {
      assert cs[i] in cs;
      assert EntryOk(NameOf(cs[i]), d[NameOf(cs[i])], h, ch);
    }
    forall i, j | 0 <= i < j < |cs|
      ensures cs[i].end <= cs[j].start
    {
      assert cs[i] in cs && cs[j] in cs;
      assert Apart(d[NameOf(cs[i])], d[NameOf(cs[j])]);
    }
  }

  lemma {:induction false} SameElementsSameList(a: seq<DiskChunk>, b: seq<DiskChunk>)
    requires ByStart(a) && ByStart(b) && forall x :: x in a <==> x in b
    ensures a == b
  {
    assert |a| > 0 ==> a[0] in a;
    assert |b| > 0 ==> b[0] in b;
    if a == [] || b == [] {
    } else {
      assert a[0] == b[0];
      forall x
        ensures x in a[1..] <==> x in b[1..]
      {
        assert x in a[1..] ==> x in a && x != a[0];
        assert x in b[1..] ==> x in b && x != b[0];
        assert a == [a[0]] + a[1..] && b == [b[0]] + b[1..];
      }
      SameElementsSameList(a[1..], b[1..]);
    }
  }

  /** A directory has one listing. */
  lemma ListingUnique(d: Directory, a: seq<DiskChunk>, b: seq<DiskChunk>)
    requires Listing(d, a) && Listing(d, b)
    ensures a == b
  {
    forall x
      ensures x in a <==> x in b
    {
      if x in a { assert d[NameOf(x)] in b; }
      if x in b { assert d[NameOf(x)] in a; }
    }
    SameElementsSameList(a, b);
  }

  function TextLen(cs: seq<DiskChunk>, withMarker: bool): nat {
    if cs == [] then 0
    else (if withMarker || !cs[0].marker then |cs[0].text| else 0) + TextLen(cs[1..], withMarker)
  }

  /** The text of all chunks but the marker, in cursor order. */
  function Payload(cs: seq<DiskChunk>): Bytes
    decreases |cs|
  {
    if |cs| == 0 then [] else (if cs[0].marker then [] else cs[0].text) + Payload(cs[1..])
  }

  lemma {:induction false} PayloadLength(cs: seq<DiskChunk>)
    ensures TextLen(cs, false) == |Payload(cs)|
    ensures (forall c | c in cs :: !c.marker) ==> TextLen(cs, true) == |Payload(cs)|
  {
    if |cs| > 0 {
      assert forall c | c in cs[1..] :: c in cs;
      PayloadLength(cs[1..]);
    }
  }

  lemma {:induction false} MarkerCountsOnce(cs: seq<DiskChunk>, m: DiskChunk)
    requires m in cs && m.marker && forall c | c in cs && c.marker :: c == m
    requires forall i, j | 0 <= i < j < |cs| :: cs[i] != cs[j]
    ensures TextLen(cs, true) == |Payload(cs)| + |m.text|
  {
    assert forall c | c in cs[1..] :: c in cs && c != cs[0];
    if cs[0] == m {
      PayloadLength(cs[1..]);
    } else {
      assert m in cs[1..];
      MarkerCountsOnce(cs[1..], m);
    }
  }

  /** The bytes of all files, with those of the marker if it is counted. */
  lemma RetainedLength(d: Directory, cs: seq<DiskChunk>, withMarker: bool)
    requires Indexed(d) && Lists(d, cs)
    ensures TextLen(cs, withMarker)
         == |Payload(cs)| + (if withMarker && MarkerFile in d then |d[MarkerFile].text| else 0)
  {
    PayloadLength(cs);
    if withMarker && MarkerFile in d {
      assert Named(MarkerFile, d[MarkerFile]);
      MarkerCountsOnce(cs, d[MarkerFile]);
    }
  }

  lemma ListingIsList(d: Directory, cs: seq<DiskChunk>)
    requires Listing(d, cs)
    ensures Lists(d, cs)
  {
  }

  function Range(a: nat, b: nat): (r: set<nat>)
    requires a <= b
    ensures |r| == b - a && forall i :: i in r <==> a <= i < b
    decreases b
  {
    if a == b then {} else Range(a, b - 1) + {b - 1}
  }

  predicate Within(c: DiskChunk, i: nat) {
    !c.marker && c.start <= i < c.end
  }

  ghost predicate InList(cs: seq<DiskChunk>, i: nat) {
    exists k :: 0 <= k < |cs| && Within(cs[k], i)
  }

  ghost function Positions(cs: seq<DiskChunk>, n: nat): set<nat> {
    set i: nat | i < n && InList(cs, i)
  }

  lemma InListStep(cs: seq<DiskChunk>, i: nat)
    requires cs != []
    ensures InList(cs, i) <==> InList(cs[1..], i) || Within(cs[0], i)
  {
    var rest := cs[1..];
    if InList(rest, i) {
      var k :| 0 <= k < |rest| && Within(rest[k], i);
      assert Within(cs[k + 1], i);
    }
    if InList(cs, i) {
      var k :| 0 <= k < |cs| && Within(cs[k], i);
      assert k == 0 || rest[k - 1] == cs[k];
    }
  }

  lemma PositionsStep(cs: seq<DiskChunk>, n: nat)
    requires cs != [] && cs[0].start <= cs[0].end <= n
    ensures Positions(cs, n) == (if cs[0].marker then {} else Range(cs[0].start, cs[0].end)) + Positions(cs[1..], n)
  {
    forall i: nat
      ensures InList(cs, i) <==> InList(cs[1..], i) || Within(cs[0], i)
    {
      InListStep(cs, i);
    }
  }

  lemma RestIsBehind(cs: seq<DiskChunk>, n: nat)
    requires |cs| > 0 && forall j | 0 < j < |cs| :: cs[0].end <= cs[j].start
    ensures forall i | i in Positions(cs[1..], n) :: i >= cs[0].end
  {
    forall i | i in Positions(cs[1..], n)
      ensures i >= cs[0].end
    {
      var k :| 0 <= k < |cs[1..]| && Within(cs[1..][k], i);
      assert cs[1..][k] == cs[k + 1];
    }
  }

  /** Payload length counts covered positions. */
  lemma {:induction false} PayloadCounts(cs: seq<DiskChunk>, n: nat)
    requires forall k | 0 <= k < |cs| :: cs[k].start <= cs[k].end <= n
    requires forall k | 0 <= k < |cs| && !cs[k].marker :: |cs[k].text| == cs[k].end - cs[k].start
    requires forall i, j | 0 <= i < j < |cs| :: cs[i].end <= cs[j].start
    ensures TextLen(cs, false) == |Positions(cs, n)|
  {
    if |cs| == 0 {
      assert Positions(cs, n) == {};
    } else {
      var c, rest := cs[0], cs[1..];
      PayloadCounts(rest, n);
      PositionsStep(cs, n);
      RestIsBehind(cs, n);
      if c.marker {
        assert Positions(cs, n) == Positions(rest, n);
      } else {
        assert Range(c.start, c.end) !! Positions(rest, n);
      }
    }
  }

  lemma AllPositions(d: Directory, cs: seq<DiskChunk>, n: nat)
    requires Listing(d, cs) && forall i: nat | i < n :: Covers(d, i)
    ensures |Positions(cs, n)| == n
  {
    forall i: nat
      ensures i in Positions(cs, n) <==> i in Range(0, n)
    {
      ListingCovers(d, cs, i);
    }
    assert Positions(cs, n) == Range(0, n);
  }

  lemma ListingPayload(d: Directory, cs: seq<DiskChunk>, h: Bytes, ch: seq<Channel>)
    requires WellFormed(d, h, ch) && Listing(d, cs)
    ensures TextLen(cs, false) == |Positions(cs, |h|)|
  {
    ListingInOrder(d, cs, h, ch);
    PayloadCounts(cs, |h|);
  }

  /** With every position on disk, the listing starts at zero and holds it all. */
  lemma FullListing(d: Directory, cs: seq<DiskChunk>, h: Bytes, ch: seq<Channel>)
    requires WellFormed(d, h, ch) && Listing(d, cs)
    requires forall i: nat | i < |h| :: Covers(d, i)
    ensures TextLen(cs, false) == |h| && (cs != [] ==> cs[0].start == 0)
  {
    ListingPayload(d, cs, h, ch);
    AllPositions(d, cs, |h|);
    if cs != [] {
      assert cs[0] in cs && EntryOk(NameOf(cs[0]), d[NameOf(cs[0])], h, ch);
      ListingCovers(d, cs, 0);
      var k :| 0 <= k < |cs| && Within(cs[k], 0);
    }
  }

  lemma ListingCovers(d: Directory, cs: seq<DiskChunk>, i: nat)
    requires Listing(d, cs)
    ensures InList(cs, i) <==> Covers(d, i)
  {
    if InList(cs, i) {
      var k :| 0 <= k < |cs| && Within(cs[k], i);
      assert cs[k] in cs;
      assert HoldsAt(d, NameOf(cs[k]), i);
    }
    if Covers(d, i) {
      var n :| HoldsAt(d, n, i);
      var k :| 0 <= k < |cs| && cs[k] == d[n];
      assert Within(cs[k], i);
    }
  }
}
