/**
 build_allocation_map (src/common/ioutil.c:16-71): asking the file system, window by window,
 which parts of the file have storage, and marking their blocks.
 */
module AllocationMap {
  import opened Bytes
  import opened Bitsets
  import opened SparseStores
  import MapLife

  const MAX_LENGTH: nat := 100 * 1024 * 1024
  const MAX_EXTENTS: nat := 1000

  /** `struct fiemap_extent`: fe_logical and fe_length. */
  datatype Extent = Extent(start: nat, length: nat) {
    function End(): nat { start + length }

    predicate Overlaps(from: nat, len: nat) {
      start < from + len && from < End()
    }

    /** Block `b` holds some of the extent's bytes. */
    predicate Touches(resolution: nat, b: nat)
      requires 0 < resolution && 0 < length
    {
      start / resolution <= b <= (End() - 1) / resolution
    }
  }

  /** The extents of a file, in order, none empty. */
  predicate Layout(xs: seq<Extent>) {
    && (forall i :: 0 <= i < |xs| ==> xs[i].length > 0)
    && (forall i, j :: 0 <= i < j < |xs| ==> xs[i].End() <= xs[j].start)
  }

  /** The FIEMAP reply: the first extents, up to `max` of them, that overlap the window. */
  function Reply(xs: seq<Extent>, from: nat, len: nat, max: nat): seq<Extent> {
    if xs == [] || max == 0 then []
    else if xs[0].Overlaps(from, len) then [xs[0]] + Reply(xs[1..], from, len, max - 1)
    else Reply(xs[1..], from, len, max)
  }

  lemma LayoutTail(xs: seq<Extent>)
    requires Layout(xs) && xs != []
    ensures Layout(xs[1..]) && forall e :: e in xs[1..] ==> xs[0].End() <= e.start
  {
    forall i, j | 0 <= i < j < |xs[1..]| ensures xs[1..][i].End() <= xs[1..][j].start {
      assert xs[1..][i] == xs[i + 1] && xs[1..][j] == xs[j + 1];
    }
  }

  lemma {:induction false} ReplyOverlaps(xs: seq<Extent>, from: nat, len: nat, max: nat)
    requires Layout(xs)
    ensures |Reply(xs, from, len, max)| <= max
    ensures forall e :: e in Reply(xs, from, len, max) ==> e in xs && e.length > 0 && e.Overlaps(from, len)
  {
    if xs != [] && max > 0 {
      LayoutTail(xs);
      ReplyOverlaps(xs[1..], from, len, if xs[0].Overlaps(from, len) then max - 1 else max);
    }
  }

  /** Only extents past the last one reported can have been cut off the reply. */
  lemma {:induction false} ReplyComplete(xs: seq<Extent>, from: nat, len: nat, max: nat, e: Extent)
    requires Layout(xs) && e in xs && e.Overlaps(from, len) && max > 0
    ensures var r := Reply(xs, from, len, max);
            r != [] && (e in r || (|r| == max && r[|r| - 1].End() <= e.start))
  {
    LayoutTail(xs);
    if xs[0].Overlaps(from, len) {
      var rest := Reply(xs[1..], from, len, max - 1);
      if e != xs[0] {
        assert e in xs[1..];
        if max > 1 {
          ReplyComplete(xs[1..], from, len, max - 1, e);
        }
      }
    } else {
      assert e in xs[1..];
      ReplyComplete(xs[1..], from, len, max, e);
    }
  }

  /** Every block of every extent that begins before `offset` is marked. */
  ghost predicate MarkedBelow(marked: set<nat>, xs: seq<Extent>, resolution: nat, offset: nat)
    requires Layout(xs) && 0 < resolution
  {
    forall e, b: nat :: e in xs && e.start < offset && e.Touches(resolution, b) ==> b in marked
  }

  /** Nothing is marked but what was, blocks of extents that begin before `size`, and blocks of `marks`. */
  ghost predicate NothingElse(before: set<nat>, marked: set<nat>, xs: seq<Extent>, marks: seq<Extent>, resolution: nat, size: nat)
    requires Layout(xs) && 0 < resolution && NonEmpty(marks)
  {
    forall b: nat :: b in marked ==>
      || b in before
      || (exists e :: e in xs && e.start < size && e.Touches(resolution, b))
      || (exists e :: e in marks && e.Touches(resolution, b))
  }

  ghost predicate NonEmpty(xs: seq<Extent>) {
    forall e :: e in xs ==> e.length > 0
  }

  /** The extents fit the bit field: none reaches past its last block. */
  ghost predicate Fits(xs: seq<Extent>, resolution: nat, blocks: nat)
    requires 0 < resolution
  {
    forall e :: e in xs ==> e.length > 0 && (e.End() - 1) / resolution < blocks
  }

  /** Where the scan goes on after a reply. */
  function NextOffset(reply: seq<Extent>, offset: nat, len: nat): nat {
    if |reply| > 0 then reply[|reply| - 1].End() else offset + len
  }

  /** However the reply was truncated, the scan moves on and skips no extent. */
  lemma NothingSkipped(xs: seq<Extent>, offset: nat, len: nat, e: Extent)
    requires Layout(xs) && 0 < len && e in xs
    ensures var reply := Reply(xs, offset, len, MAX_EXTENTS);
            && NextOffset(reply, offset, len) > offset
            && (offset <= e.start < NextOffset(reply, offset, len) ==> e in reply)
  {
    var reply := Reply(xs, offset, len, MAX_EXTENTS);
    ReplyOverlaps(xs, offset, len, MAX_EXTENTS);
    if reply != [] {
      var last := reply[|reply| - 1];
      assert last in reply;
      if offset <= e.start < last.End() {
        Ordered(xs, e, last);
        ReplyComplete(xs, offset, len, MAX_EXTENTS, e);
      }
    } else if offset <= e.start < offset + len {
      ReplyComplete(xs, offset, len, MAX_EXTENTS, e);
    }
  }

  lemma Ordered(xs: seq<Extent>, e: Extent, f: Extent)
    requires Layout(xs) && e in xs && f in xs && e.start < f.End()
    ensures e.start <= f.start && e.length > 0
  {
    var i :| 0 <= i < |xs| && xs[i] == e;
    var j :| 0 <= j < |xs| && xs[j] == f;
  }

  /** Everything a scan from `offset` on is told about. */
  function Reported(xs: seq<Extent>, offset: nat, size: nat): seq<Extent>
    requires Layout(xs)
    decreases size - offset
  {
    if offset >= size then []
    else
      var reply := Reply(xs, offset, WindowLength(offset, size), MAX_EXTENTS);
      MovesOn(xs, offset, WindowLength(offset, size));
      reply + Reported(xs, NextOffset(reply, offset, WindowLength(offset, size)), size)
  }

  function WindowLength(offset: nat, size: nat): (len: nat)
    requires offset < size
    ensures 0 < len && offset + len <= size
  {
    if offset + MAX_LENGTH > size then size - offset else MAX_LENGTH
  }

  lemma MovesOn(xs: seq<Extent>, offset: nat, len: nat)
    requires Layout(xs) && 0 < len
    ensures NextOffset(Reply(xs, offset, len, MAX_EXTENTS), offset, len) > offset
  {
    var reply := Reply(xs, offset, len, MAX_EXTENTS);
    ReplyOverlaps(xs, offset, len, MAX_EXTENTS);
    if reply != [] {
      assert reply[|reply| - 1] in reply;
    }
  }

  lemma {:induction false} ReportedOnes(xs: seq<Extent>, offset: nat, size: nat, e: Extent)
    requires Layout(xs)
    ensures e in Reported(xs, offset, size) ==> e in xs && e.start < size
    ensures e in xs && offset <= e.start < size ==> e in Reported(xs, offset, size)
    decreases size - offset
  {
    if offset < size {
      var len := WindowLength(offset, size);
      var reply := Reply(xs, offset, len, MAX_EXTENTS);
      MovesOn(xs, offset, len);
      ReplyOverlaps(xs, offset, len, MAX_EXTENTS);
      if e in xs {
        NothingSkipped(xs, offset, len, e);
      }
      ReportedOnes(xs, NextOffset(reply, offset, len), size, e);
    }
  }

  /**
   The scan keeps to a field of `blocks` bits exactly if every extent that begins inside the file
   does; one that does not makes the program set bits outside the field.
   */
  lemma KeepsToFieldIff(xs: seq<Extent>, size: nat, resolution: nat, blocks: nat)
    requires Layout(xs) && 0 < resolution
    ensures Fits(Reported(xs, 0, size), resolution, blocks) <==>
            forall e :: e in xs && e.start < size ==> (e.End() - 1) / resolution < blocks
  {
    forall e: Extent ensures e in Reported(xs, 0, size) <==> e in xs && e.start < size {
      ReportedOnes(xs, 0, size, e);
    }
  }

  /** Marking ranges one after the other, as for the extents of one reply (49-53). */
  method MarkExtents(alloc: Bitset, ranges: seq<Extent>)
    requires alloc.Valid() && Fits(ranges, alloc.resolution, 64 * alloc.bits.Length)
    modifies alloc`marked, alloc.bits, alloc.stream, alloc.stream.entries
    ensures alloc.Valid() && alloc.stream.entries == old(alloc.stream.entries)
    ensures forall b: nat :: b in alloc.marked <==>
              b in old(alloc.marked) || exists e :: e in ranges && e.Touches(alloc.resolution, b)
  {
    for i := 0 to |ranges|
      invariant alloc.Valid() && alloc.stream.entries == old(alloc.stream.entries)
      invariant forall b: nat :: b in alloc.marked <==>
                  b in old(alloc.marked) || exists k :: 0 <= k < i && ranges[k].Touches(alloc.resolution, b)
    {
      var e := ranges[i];
      assert e in ranges;
      alloc.SetRange(e.start, e.length);
    }
  }

  lemma StillMarked(was: set<nat>, now: set<nat>, xs: seq<Extent>, reply: seq<Extent>, resolution: nat, offset: nat, next: nat)
    requires Layout(xs) && 0 < resolution && MarkedBelow(was, xs, resolution, offset) && was <= now && NonEmpty(reply)
    requires forall e, b: nat :: e in reply && e.Touches(resolution, b) ==> b in now
    requires forall e :: e in xs && offset <= e.start < next ==> e in reply
    ensures MarkedBelow(now, xs, resolution, next)
  {
  }

  /** One turn of the scan, after clients have marked `marks`. */
  method ScanTurn(alloc: Bitset, xs: seq<Extent>, marks: seq<Extent>, offset: nat) returns (next: nat)
    requires alloc.Valid() && Layout(xs) && Fits(marks, alloc.resolution, 64 * alloc.bits.Length)
    requires Fits(Reported(xs, offset, alloc.size), alloc.resolution, 64 * alloc.bits.Length) && offset < alloc.size
    modifies alloc`marked, alloc.bits, alloc.stream, alloc.stream.entries
    ensures alloc.Valid() && alloc.stream.entries == old(alloc.stream.entries)
    ensures offset < next && Fits(Reported(xs, next, alloc.size), alloc.resolution, 64 * alloc.bits.Length)
    ensures MarkedBelow(old(alloc.marked), xs, alloc.resolution, offset) ==> MarkedBelow(alloc.marked, xs, alloc.resolution, next)
    ensures old(alloc.marked) <= alloc.marked
    ensures forall b: nat :: b in alloc.marked ==>
              || b in old(alloc.marked)
              || (exists e :: e in xs && e.start < alloc.size && e.Touches(alloc.resolution, b))
              || (exists e :: e in marks && e.Touches(alloc.resolution, b))
    ensures forall e, b: nat :: e in marks && e.Touches(alloc.resolution, b) ==> b in alloc.marked
  {
    MarkExtents(alloc, marks);
    ghost var between := alloc.marked;
    var length := if offset + MAX_LENGTH > alloc.size then alloc.size - offset else MAX_LENGTH;
    var reply := Reply(xs, offset, length, MAX_EXTENTS);
    ReplyOverlaps(xs, offset, length, MAX_EXTENTS);
    MovesOn(xs, offset, length);
    next := NextOffset(reply, offset, length);
    ReportedSplits(reply, xs, offset, next, alloc.size, alloc.resolution, 64 * alloc.bits.Length);
    MarkExtents(alloc, reply);
    forall e | e in xs ensures offset <= e.start < next ==> e in reply {
      NothingSkipped(xs, offset, length, e);
    }
    if MarkedBelow(old(alloc.marked), xs, alloc.resolution, offset) {
      StillMarked(old(alloc.marked), alloc.marked, xs, reply, alloc.resolution, offset, next);
    }
  }

  lemma ReportedSplits(reply: seq<Extent>, xs: seq<Extent>, offset: nat, next: nat, size: nat, resolution: nat, blocks: nat)
    requires Layout(xs) && offset < size && 0 < resolution
    requires reply == Reply(xs, offset, WindowLength(offset, size), MAX_EXTENTS)
    requires next == NextOffset(reply, offset, WindowLength(offset, size))
    requires Fits(Reported(xs, offset, size), resolution, blocks)
    ensures Fits(reply, resolution, blocks) && Fits(Reported(xs, next, size), resolution, blocks)
  {
    assert Reported(xs, offset, size) == reply + Reported(xs, next, size);
  }

  /**
   build_allocation_map; `answers(offset)` says whether the ioctl for that offset succeeds, and
   `writes(offset)` what clients have marked since the one before.  It always comes to an end,
   and when it reports success exactly the blocks with storage, and those clients marked
   meanwhile, have been marked.
   */
  method BuildAllocationMap(alloc: Bitset, xs: seq<Extent>, answers: nat -> bool, writes: nat -> seq<Extent>)
      returns (ok: bool, ghost marks: seq<Extent>)
    requires alloc.Valid() && Layout(xs)
    requires Fits(Reported(xs, 0, alloc.size), alloc.resolution, 64 * alloc.bits.Length)
    requires forall o :: Fits(writes(o), alloc.resolution, 64 * alloc.bits.Length)
    modifies alloc`marked, alloc.bits, alloc.stream, alloc.stream.entries
    ensures alloc.Valid() && NonEmpty(marks)
    ensures ok ==> MarkedBelow(alloc.marked, xs, alloc.resolution, alloc.size)
    ensures forall e, b: nat :: e in marks && e.Touches(alloc.resolution, b) ==> b in alloc.marked
    ensures old(alloc.marked) <= alloc.marked
    ensures NothingElse(old(alloc.marked), alloc.marked, xs, marks, alloc.resolution, alloc.size)
    ensures (forall o :: answers(o)) ==> ok
  {
    var offset := 0;
    marks := [];
    while offset < alloc.size
      invariant alloc.Valid() && alloc.stream.entries == old(alloc.stream.entries)
      invariant Fits(Reported(xs, offset, alloc.size), alloc.resolution, 64 * alloc.bits.Length)
      invariant old(alloc.marked) <= alloc.marked && NonEmpty(marks)
      invariant MarkedBelow(alloc.marked, xs, alloc.resolution, offset)
      invariant NothingElse(old(alloc.marked), alloc.marked, xs, marks, alloc.resolution, alloc.size)
      invariant forall e, b: nat :: e in marks && e.Touches(alloc.resolution, b) ==> b in alloc.marked
      decreases alloc.size - offset
    {
      if !answers(offset) {
        return false, marks;
      }
      assert Fits(writes(offset), alloc.resolution, 64 * alloc.bits.Length);
      var next := ScanTurn(alloc, xs, writes(offset), offset);
      marks := marks + writes(offset);
      offset := next;
    }
    return true, marks;
  }

  // ----- the scan in the life of the map -----

  /** The blocks a reply makes the builder mark. */
  function BlocksOf(reply: seq<Extent>): set<nat> {
    if reply == [] then {} else MapLife.Touched(reply[0].start, reply[0].End()) + BlocksOf(reply[1..])
  }

  lemma {:induction false} BlocksOfEach(reply: seq<Extent>, e: Extent)
    requires e in reply
    ensures MapLife.Touched(e.start, e.End()) <= BlocksOf(reply)
  {
    if e != reply[0] {
      BlocksOfEach(reply[1..], e);
    }
  }

  /** Bytes without storage read as zeroes. */
  ghost predicate HolesAreZero(xs: seq<Extent>, bytes: seq<byte>) {
    forall i :: 0 <= i < |bytes| && bytes[i] != 0 ==> exists e :: e in xs && e.start <= i < e.End()
  }

  /** However the reply was truncated, the extent of a byte the scan goes past is in it. */
  lemma ByteReported(xs: seq<Extent>, offset: nat, len: nat, i: nat, e: Extent)
    requires Layout(xs) && 0 < len && e in xs && e.start <= i < e.End()
    requires offset <= i < NextOffset(Reply(xs, offset, len, MAX_EXTENTS), offset, len)
    ensures e in Reply(xs, offset, len, MAX_EXTENTS)
  {
    var reply := Reply(xs, offset, len, MAX_EXTENTS);
    ReplyOverlaps(xs, offset, len, MAX_EXTENTS);
    if e.start < offset + len {
      ReplyComplete(xs, offset, len, MAX_EXTENTS, e);
    } else if reply != [] {
      var last := reply[|reply| - 1];
      assert last in reply;
      Disjoint(xs, e, last);
    }
  }

  lemma Disjoint(xs: seq<Extent>, e: Extent, f: Extent)
    requires Layout(xs) && e in xs && f in xs && f.start < e.start
    ensures f.End() <= e.start
  {
    var i :| 0 <= i < |xs| && xs[i] == e;
    var j :| 0 <= j < |xs| && xs[j] == f;
  }

  lemma WindowCovered(xs: seq<Extent>, bytes: seq<byte>, offset: nat, len: nat)
    requires Layout(xs) && HolesAreZero(xs, bytes) && 0 < len
    ensures var reply := Reply(xs, offset, len, MAX_EXTENTS);
            forall i :: offset <= i < NextOffset(reply, offset, len) && i < |bytes| && bytes[i] != 0 ==>
              i / BLOCK in BlocksOf(reply)
  {
    var reply := Reply(xs, offset, len, MAX_EXTENTS);
    forall i: nat | offset <= i < NextOffset(reply, offset, len) && i < |bytes| && bytes[i] != 0
      ensures i / BLOCK in BlocksOf(reply)
    {
      var e :| e in xs && e.start <= i < e.End();
      ByteReported(xs, offset, len, i, e);
      BlocksOfEach(reply, e);
      MapLife.InTouched(e.start, e.End(), i);
    }
  }

  /** What the builder learns from one ioctl. */
  function Learns(xs: seq<Extent>, offset: nat, len: nat): MapLife.Step {
    var reply := Reply(xs, offset, len, MAX_EXTENTS);
    MapLife.BuilderAsks(NextOffset(reply, offset, len), BlocksOf(reply))
  }

  /**
   One turn of the scan is what the builder does in MapLife: whatever extents the file has at that
   moment, if its holes read as zeroes at that moment the reply and the next offset are such as
   BuilderAsks asks for, and every extent of the reply can then be marked.
   */
  lemma TurnIsAsk(l: MapLife.Life, xs: seq<Extent>, offset: nat)
    requires l.builder == MapLife.Scanning(offset) && offset < |l.bytes|
    requires Layout(xs) && HolesAreZero(xs, l.bytes)
    ensures var len := if |l.bytes| - offset < 104857600 then |l.bytes| - offset else 104857600;
            var ask := Learns(xs, offset, len);
            && len == WindowLength(offset, |l.bytes|) && |Reply(xs, offset, len, MAX_EXTENTS)| <= 1000
            && MapLife.Enabled(l, ask) && CanMarkAll(MapLife.Apply(l, ask), xs, offset, len)
  {
    var len := WindowLength(offset, |l.bytes|);
    ReplyOverlaps(xs, offset, len, MAX_EXTENTS);
    MovesOn(xs, offset, len);
    WindowCovered(xs, l.bytes, offset, len);
    AllMarkable(MapLife.Apply(l, Learns(xs, offset, len)), xs, offset, len);
  }

  ghost predicate CanMarkAll(l: MapLife.Life, xs: seq<Extent>, offset: nat, len: nat) {
    forall e :: e in Reply(xs, offset, len, MAX_EXTENTS) ==> MapLife.Enabled(l, MapLife.BuilderMarks(e.start, e.End()))
  }

  lemma AllMarkable(l: MapLife.Life, xs: seq<Extent>, offset: nat, len: nat)
    requires Layout(xs) && l.builder.Told? && l.builder.blocks == BlocksOf(Reply(xs, offset, len, MAX_EXTENTS))
    ensures CanMarkAll(l, xs, offset, len)
  {
    var reply := Reply(xs, offset, len, MAX_EXTENTS);
    ReplyOverlaps(xs, offset, len, MAX_EXTENTS);
    forall e | e in reply ensures MapLife.Enabled(l, MapLife.BuilderMarks(e.start, e.End())) {
      BlocksOfEach(reply, e);
    }
  }
}
