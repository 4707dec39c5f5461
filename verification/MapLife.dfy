/**
 The life of a server's allocation map, as interleaved steps: the builder that asks the file system
 window by window (src/common/ioutil.c:32-66), any number of client threads that write straight to
 the file while the map is not built and through write_not_zeroes afterwards
 (src/server/client.c:453-471, 105-212), and connections that break off.  When a clear bit means a
 block of zeroes, when it does not, and that every change is announced.
 */
module MapLife {
  import opened Bytes
  import opened EventStream
  import opened SparseStores

  /** Where a client thread is in a write up to `to`. */
  datatype Writer =
    | Idle
    | Direct(at: nat, cur: nat, to: nat)                              // no map: [at, cur) stored
    | Choosing(at: nat, to: nat)                                      // top of the loop of write_not_zeroes
    | Counted(at: nat, stop: nat, to: nat)                            // bitset_run_count has been read
    | Filling(at: nat, cur: nat, stop: nat, to: nat)                  // the bit was set: [at, cur) stored
    | Skipping(at: nat, stop: nat, to: nat)                           // the bit was clear: block by block
    | Copying(at: nat, cur: nat, data: seq<byte>, stop: nat, to: nat) // a block that is not all zeroes

  /**
   The builder: next it asks from `offset` on, or it has been told `blocks` for all before `next`
   and has yet to mark `todo` of them.
   */
  datatype Builder = Scanning(offset: nat) | Told(next: nat, blocks: set<nat>, todo: set<nat>) | Finished | Failed

  /**
   `left` holds the bytes stored by writes that broke off before they were marked; `owed`, while
   changes are streamed, those stored since an event last named them.
   */
  datatype Life = Life(
    bytes: seq<byte>, marked: set<nat>, builder: Builder,
    writers: map<nat, Writer>, left: set<nat>,
    streaming: bool, log: seq<Entry>, owed: set<nat>)

  /** allocation_map_built */
  predicate MapBuilt(l: Life) {
    l.builder.Finished?
  }

  datatype Step =
    | Connect(c: nat)
    | BeginWrite(c: nat, from: nat, to: nat)
    | StoreBytes(c: nat, data: seq<byte>)
    | MarkStored(c: nat)
    | CountRun(c: nat, stop: nat)
    | TestBit(c: nat)
    | SkipZeroes(c: nat)
    | FindData(c: nat, data: seq<byte>)
    | Cut(c: nat)
    | BuilderAsks(next: nat, blocks: set<nat>)
    | BuilderMarks(at: nat, end: nat)
    | BuilderMoves
    | BuilderDone
    | BuilderFails
    | StreamOn
    | StreamOff

  /** Bytes are on their way into the mapping. */
  predicate Storing(w: Writer) {
    w.Direct? || w.Filling? || w.Copying?
  }

  /** How far they will go before bitset_set_range. */
  function Goal(w: Writer): nat
    requires Storing(w)
  {
    match w
    case Direct(_, _, to) => to
    case Filling(_, _, stop, _) => stop
    case Copying(at, _, data, _, _) => at + |data|
  }

  /** The part of a write that is in the file but not yet marked. */
  function Stored(w: Writer): set<nat> {
    if Storing(w) then Interval(w.at, w.cur) else {}
  }

  predicate CanStore(w: Writer, data: seq<byte>) {
    Storing(w) && w.cur + |data| <= Goal(w) && (w.Copying? ==> w.at <= w.cur && w.data[w.cur - w.at..][..|data|] == data)
  }

  predicate CanMark(w: Writer) {
    Storing(w) && w.at <= w.cur == Goal(w)
  }

  /** It waits for payload, which need not come. */
  predicate CanCut(w: Writer) {
    || ((w.Direct? || w.Filling?) && w.cur < Goal(w))
    || w.Idle? || w.Choosing? || w.Counted? || w.Skipping?
  }

  function NextRun(at: nat, to: nat): Writer {
    if at < to then Choosing(at, to) else Idle
  }

  function NextBlock(at: nat, stop: nat, to: nat): Writer {
    if at < stop then Skipping(at, stop, to) else NextRun(at, to)
  }

  function AfterMark(w: Writer): Writer
    requires CanMark(w)
  {
    match w
    case Direct(_, _, _) => Idle
    case Filling(_, cur, _, to) => NextRun(cur, to)
    case Copying(_, cur, _, stop, to) => NextBlock(cur, stop, to)
  }

  /** The end of the block, or of the run. */
  function BlockEnd(w: Writer): nat
    requires w.Skipping? && w.at < w.stop
  {
    w.at + BlockRun(w.at, w.stop - w.at)
  }

  ghost predicate Enabled(l: Life, a: Step) {
    match a
    case Connect(c) => c !in l.writers
    case BeginWrite(c, from, to) => c in l.writers && l.writers[c].Idle? && from <= to <= |l.bytes| && (MapBuilt(l) || 0 < to)
    case StoreBytes(c, data) =>
      c in l.writers && CanStore(l.writers[c], data) && l.writers[c].cur + |data| <= |l.bytes|
    case MarkStored(c) => c in l.writers && CanMark(l.writers[c])
    // under the lock of the bitset, like bits as far as `stop`
    case CountRun(c, stop) =>
      && c in l.writers && l.writers[c].Choosing? && l.writers[c].at < stop <= l.writers[c].to
      && LikeBits(l.marked, l.writers[c].at, stop)
    case TestBit(c) => c in l.writers && l.writers[c].Counted?
    case SkipZeroes(c) => c in l.writers && l.writers[c].Skipping? && l.writers[c].at < l.writers[c].stop
    case FindData(c, data) =>
      && c in l.writers && l.writers[c].Skipping? && l.writers[c].at < l.writers[c].stop
      && !AllZero(data) && l.writers[c].at + |data| == BlockEnd(l.writers[c])
    case Cut(c) => c in l.writers && CanCut(l.writers[c])
    // what has no storage at this moment reads as zeroes at this moment
    case BuilderAsks(next, blocks) =>
      && l.builder.Scanning? && l.builder.offset < next
      && forall i :: l.builder.offset <= i < next && i < |l.bytes| && l.bytes[i] != 0 ==> i / BLOCK in blocks
    case BuilderMarks(at, end) => l.builder.Told? && at < end && Touched(at, end) <= l.builder.blocks
    case BuilderMoves => l.builder.Told? && l.builder.todo == {}
    case BuilderDone => l.builder.Scanning? && l.builder.offset >= |l.bytes|
    case BuilderFails => l.builder.Scanning?
    case StreamOn => !l.streaming
    case StreamOff => l.streaming
  }

  ghost predicate LikeBits(marked: set<nat>, at: nat, stop: nat)
    requires at < stop
  {
    Blocks(marked, at, stop - at, true) || Blocks(marked, at, stop - at, false)
  }

  /** The flag is read when the write begins. */
  function Begun(built: bool, from: nat, to: nat): Writer {
    if built then NextRun(from, to) else Direct(from, from, to)
  }

  function Tested(w: Writer, isSet: bool): Writer
    requires w.Counted?
  {
    if isSet then Filling(w.at, w.at, w.stop, w.to) else Skipping(w.at, w.stop, w.to)
  }

  function With(l: Life, c: nat, w: Writer): Life {
    l.(writers := l.writers[c := w])
  }

  function Grown(w: Writer, n: nat): Writer
    requires Storing(w)
  {
    w.(cur := w.cur + n)
  }

  /** The life after the client has stored `data`, with the client's new stage given. */
  function StoredLife(l: Life, c: nat, at: nat, data: seq<byte>, v: Writer): Life
    requires at + |data| <= |l.bytes|
  {
    l.(bytes := Splice(l.bytes, at, data), owed := l.owed + Interval(at, at + |data|), writers := l.writers[c := v])
  }

  function StoreNext(l: Life, c: nat, data: seq<byte>): Life
    requires c in l.writers && CanStore(l.writers[c], data) && l.writers[c].cur + |data| <= |l.bytes|
  {
    var w := l.writers[c];
    StoredLife(l, c, w.cur, data, Grown(w, |data|))
  }

  /** The blocks bitset_set_range marks. */
  function Touched(at: nat, end: nat): set<nat> {
    if end == 0 then {} else Interval(at / BLOCK, (end - 1) / BLOCK + 1)
  }

  /** bitset_set_range: the bits and, if the stream is on, the event, under one lock. */
  function SetRange(l: Life, at: nat, end: nat): Life
    requires at <= end
  {
    var e := Entry(Set, at, end - at);
    l.(marked := l.marked + Touched(at, end),
       log := if l.streaming then l.log + [e] else l.log,
       owed := if l.streaming then l.owed - Interval(e.from, e.from + e.len) else l.owed)
  }

  function Mark(l: Life, c: nat): Life
    requires c in l.writers && CanMark(l.writers[c])
  {
    var w := l.writers[c];
    SetRange(l, w.at, w.cur).(writers := l.writers[c := AfterMark(w)])
  }

  /** The client is gone; what it stored stays. */
  function Lose(l: Life, c: nat): Life
    requires c in l.writers
  {
    l.(left := l.left + Stored(l.writers[c]), writers := l.writers - {c})
  }

  ghost function Apply(l: Life, a: Step): Life
    requires Enabled(l, a)
  {
    match a
    case Connect(c) => With(l, c, Idle)
    case BeginWrite(c, from, to) => With(l, c, Begun(MapBuilt(l), from, to))
    case StoreBytes(c, data) => StoreNext(l, c, data)
    case MarkStored(c) => Mark(l, c)
    case CountRun(c, stop) => With(l, c, Counted(l.writers[c].at, stop, l.writers[c].to))
    case TestBit(c) => With(l, c, Tested(l.writers[c], l.writers[c].at / BLOCK in l.marked))
    case SkipZeroes(c) => With(l, c, NextBlock(BlockEnd(l.writers[c]), l.writers[c].stop, l.writers[c].to))
    case FindData(c, data) =>
      With(l, c, Copying(l.writers[c].at, l.writers[c].at, data, l.writers[c].stop, l.writers[c].to))
    case Cut(c) => Lose(l, c)
    case BuilderAsks(next, blocks) => l.(builder := Told(next, blocks, blocks))
    case BuilderMarks(at, end) => SetRange(l, at, end).(builder := l.builder.(todo := l.builder.todo - Touched(at, end)))
    case BuilderMoves => l.(builder := Scanning(l.builder.next))
    case BuilderDone => l.(builder := Finished)
    case BuilderFails => l.(builder := Failed)
    case StreamOn => l.(streaming := true, owed := {})
    case StreamOff => l.(streaming := false)
  }

  ghost predicate CanRun(l: Life, run: seq<Step>)
    decreases |run|
  {
    run == [] || (Enabled(l, run[0]) && CanRun(Apply(l, run[0]), run[1..]))
  }

  ghost function Exec(l: Life, run: seq<Step>): Life
    requires CanRun(l, run)
    decreases |run|
  {
    if run == [] then l else Exec(Apply(l, run[0]), run[1..])
  }

  /** A server just started: nothing marked, nobody connected, the builder at its first window. */
  ghost predicate Fresh(l: Life) {
    l.marked == {} && l.builder == Scanning(0) && l.writers == map[] && l.left == {} && !l.streaming && l.owed == {}
  }

  // ----- the invariant -----

  /** Some client has stored byte `i` and not yet marked it. */
  ghost predicate Unfinished(writers: map<nat, Writer>, i: nat) {
    exists c :: c in writers && i in Stored(writers[c])
  }

  /** The builder has yet to come to byte `i`, or to mark it; if it failed it never will. */
  predicate Awaits(b: Builder, i: nat) {
    match b
    case Scanning(offset) => offset <= i
    case Told(next, _, todo) => next <= i || i / BLOCK in todo
    case Finished => false
    case Failed => true
  }

  /** Every byte that is not zero is marked, or there is a reason why not. */
  ghost predicate Covered(bytes: seq<byte>, marked: set<nat>, b: Builder, writers: map<nat, Writer>, left: set<nat>) {
    forall i :: 0 <= i < |bytes| && bytes[i] != 0 ==>
      i / BLOCK in marked || i in left || Unfinished(writers, i) || Awaits(b, i)
  }

  /** What no event has named yet is still being written, or was cut off. */
  ghost predicate Announced(owed: set<nat>, writers: map<nat, Writer>, left: set<nat>) {
    forall i :: i in owed ==> i in left || Unfinished(writers, i)
  }

  ghost predicate WriterOk(size: nat, w: Writer) {
    match w
    case Idle => true
    case Direct(at, cur, to) => at <= cur <= to <= size && 0 < to
    case Choosing(at, to) => at < to <= size
    case Counted(at, stop, to) => at < stop <= to <= size
    case Filling(at, cur, stop, to) => at <= cur <= stop <= to <= size && at < stop
    case Skipping(at, stop, to) => at < stop <= to <= size
    case Copying(at, cur, data, stop, to) => at <= cur <= at + |data| <= stop <= to <= size && data != []
  }

  ghost predicate Orderly(size: nat, writers: map<nat, Writer>, left: set<nat>) {
    && (forall c :: c in writers ==> WriterOk(size, writers[c]))
    && (forall i :: i in left ==> i + 1 < size)
  }

  ghost predicate Inv(l: Life) {
    && Covered(l.bytes, l.marked, l.builder, l.writers, l.left)
    && (l.streaming ==> Announced(l.owed, l.writers, l.left))
    && Orderly(|l.bytes|, l.writers, l.left)
  }

  lemma FreshInv(l: Life)
    requires Fresh(l)
    ensures Inv(l)
  {
  }

  // ----- every step keeps it -----

  /** Whatever one writer turns into, the others' bytes stay accounted for. */
  lemma OthersStay(writers: map<nat, Writer>, c: nat, w: Writer, i: nat)
    requires Unfinished(writers, i)
    ensures Unfinished(writers[c := w], i) || (c in writers && i in Stored(writers[c]))
  {
    var d :| d in writers && i in Stored(writers[d]);
    assert d != c ==> d in writers[c := w] && writers[c := w][d] == writers[d];
  }

  /** A writer with nothing unmarked goes on to another such stage, or arrives. */
  lemma IdlyKeeps(l: Life, c: nat, w: Writer)
    requires Inv(l) && WriterOk(|l.bytes|, w) && (c in l.writers ==> Stored(l.writers[c]) == {})
    ensures Inv(With(l, c, w))
  {
    forall i | Unfinished(l.writers, i) ensures Unfinished(l.writers[c := w], i) {
      OthersStay(l.writers, c, w, i);
    }
  }

  lemma NowUnfinished(writers: map<nat, Writer>, c: nat, w: Writer, i: nat)
    requires i in Stored(w)
    ensures Unfinished(writers[c := w], i)
  {
    assert c in writers[c := w] && writers[c := w][c] == w;
  }

  /** From `w` to `v`, the client has stored some more. */
  ghost predicate StoredMore(writers: map<nat, Writer>, c: nat, w: Writer, v: Writer) {
    c in writers && w == writers[c] && Storing(w) && Storing(v) && v.at == w.at <= w.cur <= v.cur
  }

  lemma StillUnfinished(writers: map<nat, Writer>, c: nat, w: Writer, v: Writer, i: nat)
    requires StoredMore(writers, c, w, v) && (Unfinished(writers, i) || w.cur <= i < v.cur)
    ensures Unfinished(writers[c := v], i)
  {
    if i in Stored(v) {
      NowUnfinished(writers, c, v, i);
    } else {
      OthersStay(writers, c, v, i);
    }
  }

  lemma StoreCovers(l: Life, c: nat, w: Writer, v: Writer, data: seq<byte>)
    requires StoredMore(l.writers, c, w, v) && v.cur == w.cur + |data| <= |l.bytes|
    requires Covered(l.bytes, l.marked, l.builder, l.writers, l.left)
    ensures Covered(Splice(l.bytes, w.cur, data), l.marked, l.builder, l.writers[c := v], l.left)
  {
    var bytes := Splice(l.bytes, w.cur, data);
    forall i | 0 <= i < |bytes| && bytes[i] != 0
      ensures i / BLOCK in l.marked || i in l.left || Unfinished(l.writers[c := v], i) || Awaits(l.builder, i)
    {
      if Unfinished(l.writers, i) || w.cur <= i < v.cur {
        StillUnfinished(l.writers, c, w, v, i);
      }
    }
  }

  lemma StoreOwes(l: Life, c: nat, w: Writer, v: Writer)
    requires StoredMore(l.writers, c, w, v) && Announced(l.owed, l.writers, l.left)
    ensures Announced(l.owed + Interval(w.cur, v.cur), l.writers[c := v], l.left)
  {
    forall i | i in l.owed + Interval(w.cur, v.cur) ensures i in l.left || Unfinished(l.writers[c := v], i) {
      if i !in l.left {
        StillUnfinished(l.writers, c, w, v, i);
      }
    }
  }

  lemma MoreOk(size: nat, w: Writer, data: seq<byte>)
    requires WriterOk(size, w) && CanStore(w, data)
    ensures var v := Grown(w, |data|); WriterOk(size, v) && Storing(v) && v.at == w.at <= w.cur && v.cur == w.cur + |data|
  {
  }

  lemma OrderlyWith(size: nat, writers: map<nat, Writer>, left: set<nat>, c: nat, v: Writer)
    requires Orderly(size, writers, left) && WriterOk(size, v)
    ensures Orderly(size, writers[c := v], left)
  {
  }

  lemma StoreParts(l: Life, c: nat, w: Writer, v: Writer, data: seq<byte>)
    requires Inv(l) && StoredMore(l.writers, c, w, v) && v.cur == w.cur + |data| <= |l.bytes| && WriterOk(|l.bytes|, v)
    ensures Inv(StoredLife(l, c, w.cur, data, v))
  {
    StoreCovers(l, c, w, v, data);
    OrderlyWith(|l.bytes|, l.writers, l.left, c, v);
    if l.streaming {
      StoreOwes(l, c, w, v);
    }
  }

  lemma WriterFine(l: Life, c: nat)
    requires Inv(l) && c in l.writers
    ensures WriterOk(|l.bytes|, l.writers[c])
  {
  }

  lemma StoreKeeps(l: Life, c: nat, data: seq<byte>)
    requires Inv(l) && c in l.writers && CanStore(l.writers[c], data) && l.writers[c].cur + |data| <= |l.bytes|
    ensures Inv(StoreNext(l, c, data))
  {
    var w := l.writers[c];
    WriterFine(l, c);
    MoreOk(|l.bytes|, w, data);
    StoreParts(l, c, w, Grown(w, |data|), data);
  }

  lemma InTouched(at: nat, end: nat, i: nat)
    requires at <= i < end
    ensures i / BLOCK in Touched(at, end)
  {
  }

  lemma MarkKeeps(l: Life, c: nat)
    requires Inv(l) && Enabled(l, MarkStored(c))
    ensures Inv(Mark(l, c))
  {
    var w := l.writers[c];
    var m := Mark(l, c);
    assert WriterOk(|l.bytes|, w) && WriterOk(|l.bytes|, AfterMark(w));
    forall i: nat | Unfinished(l.writers, i) ensures Unfinished(m.writers, i) || (w.at <= i < w.cur && i / BLOCK in m.marked) {
      OthersStay(l.writers, c, AfterMark(w), i);
      if w.at <= i < w.cur {
        InTouched(w.at, w.cur, i);
      }
    }
  }

  lemma CutKeeps(l: Life, c: nat)
    requires Inv(l) && Enabled(l, Cut(c))
    ensures Inv(Lose(l, c))
  {
    var w := l.writers[c];
    var m := Lose(l, c);
    assert WriterOk(|l.bytes|, w);
    forall i | Unfinished(l.writers, i) ensures Unfinished(m.writers, i) || i in m.left {
      var d :| d in l.writers && i in Stored(l.writers[d]);
      assert d != c ==> d in m.writers && m.writers[d] == l.writers[d];
    }
  }

  lemma StepKeeps(l: Life, a: Step)
    requires Inv(l) && Enabled(l, a)
    ensures Inv(Apply(l, a))
  {
    match a
    case StoreBytes(c, data) => StoreKeeps(l, c, data);
    case MarkStored(c) => MarkKeeps(l, c);
    case Cut(c) => CutKeeps(l, c);
    case Connect(c) => IdlyKeeps(l, c, Idle);
    case BeginWrite(c, from, to) => IdlyKeeps(l, c, Begun(MapBuilt(l), from, to));
    case CountRun(c, stop) =>
      IdlyKeeps(l, c, Counted(l.writers[c].at, stop, l.writers[c].to));
    case TestBit(c) =>
      IdlyKeeps(l, c, Tested(l.writers[c], l.writers[c].at / BLOCK in l.marked));
    case SkipZeroes(c) =>
      IdlyKeeps(l, c, NextBlock(BlockEnd(l.writers[c]), l.writers[c].stop, l.writers[c].to));
    case FindData(c, data) =>
      IdlyKeeps(l, c, Copying(l.writers[c].at, l.writers[c].at, data, l.writers[c].stop, l.writers[c].to));
    case _ =>
  }

  lemma {:induction false} RunKeeps(l: Life, run: seq<Step>)
    requires Inv(l) && CanRun(l, run)
    ensures Inv(Exec(l, run))
    decreases |run|
  {
    if run != [] {
      StepKeeps(l, run[0]);
      RunKeeps(Apply(l, run[0]), run[1..]);
    }
  }

  // ----- the promise over a server's life -----

  /** Nobody has stored anything that is not marked yet. */
  ghost predicate Quiet(l: Life) {
    forall i :: !Unfinished(l.writers, i)
  }

  /** Every byte a broken-off write left behind is zero or lies in a marked block. */
  ghost predicate NothingAmiss(l: Life) {
    forall i :: i in l.left && i < |l.bytes| && l.bytes[i] != 0 ==> i / BLOCK in l.marked
  }

  /**
   However builder, clients and broken connections interleave: once the map is built and no write is
   half done, a clear bit means a block of zeroes exactly if no broken-off write left anything else.
   */
  lemma SparseIff(start: Life, run: seq<Step>)
    requires Fresh(start) && CanRun(start, run)
    ensures var l := Exec(start, run);
            MapBuilt(l) && Quiet(l) ==> (SparseImage(l.marked, l.bytes) <==> NothingAmiss(l))
  {
    FreshInv(start);
    RunKeeps(start, run);
  }

  /** While changes are streamed, whatever no event has named is being written or was cut off. */
  lemma EveryChangeAnnounced(start: Life, run: seq<Step>)
    requires Fresh(start) && CanRun(start, run)
    ensures var l := Exec(start, run);
            && (l.streaming ==> Announced(l.owed, l.writers, l.left))
            && (l.streaming && Quiet(l) ==> l.owed <= l.left)
  {
    FreshInv(start);
    RunKeeps(start, run);
  }

  lemma {:induction false} NothingLeft(l: Life, run: seq<Step>)
    requires CanRun(l, run) && l.left == {} && forall a :: a in run ==> !a.Cut?
    ensures Exec(l, run).left == {}
    decreases |run|
  {
    if run != [] {
      NothingLeft(Apply(l, run[0]), run[1..]);
    }
  }

  /** So the promise is kept where no connection breaks off in the middle of a write. */
  lemma KeptWithoutCuts(start: Life, run: seq<Step>)
    requires Fresh(start) && CanRun(start, run) && forall a :: a in run ==> !a.Cut?
    ensures var l := Exec(start, run);
            MapBuilt(l) && Quiet(l) ==> SparseImage(l.marked, l.bytes)
  {
    NothingLeft(start, run);
    SparseIff(start, run);
  }

  // ----- how it is broken -----

  ghost predicate Reaches(l: Life, m: Life) {
    exists run :: CanRun(l, run) && Exec(l, run) == m
  }

  lemma {:induction false} RunThen(l: Life, run: seq<Step>, a: Step)
    requires CanRun(l, run) && Enabled(Exec(l, run), a)
    ensures CanRun(l, run + [a]) && Exec(l, run + [a]) == Apply(Exec(l, run), a)
    decreases |run|
  {
    if run == [] {
      assert run + [a] == [a] && CanRun(Apply(l, a), [a][1..]);
    } else {
      RunThen(Apply(l, run[0]), run[1..], a);
      assert (run + [a])[0] == run[0] && (run + [a])[1..] == run[1..] + [a];
    }
  }

  lemma Start(l: Life)
    ensures Reaches(l, l)
  {
    assert CanRun(l, []) && Exec(l, []) == l;
  }

  lemma Then(l: Life, m: Life, a: Step)
    requires Reaches(l, m) && Enabled(m, a)
    ensures Reaches(l, Apply(m, a))
  {
    var run :| CanRun(l, run) && Exec(l, run) == m;
    RunThen(l, run, a);
  }

  /** Built and quiet, with byte `b` other than zero in a clear block. */
  ghost predicate Broken(l: Life, b: nat) {
    MapBuilt(l) && Quiet(l) && b < |l.bytes| && l.bytes[b] != 0 && b / BLOCK !in l.marked
  }

  ghost predicate CanBreak(size: nat, b: nat) {
    exists start, l :: Fresh(start) && |start.bytes| == size && Reaches(start, l) && Broken(l, b)
  }

  function Zeroes(n: nat): (s: seq<byte>)
    ensures |s| == n && AllZero(s)
  {
    seq(n, _ => 0)
  }

  function Blank(size: nat): Life {
    Life(Zeroes(size), {}, Scanning(0), map[], {}, false, [], {})
  }

  /**
   The builder passes over an empty file; a client, who finds the map not built, writes two bytes
   straight to it and is cut off after the first; then the map is declared built.
   */
  lemma BreakingRun(size: nat, b: nat)
    requires b + 1 < size
    ensures CanBreak(size, b)
  {
    var start := Blank(size);
    Start(start);
    Then(start, start, BuilderAsks(size, {}));
    var told := start.(builder := Told(size, {}, {}));
    Then(start, told, BuilderMoves);
    var passed := start.(builder := Scanning(size));
    Then(start, passed, Connect(0));
    var open := With(passed, 0, Idle);
    Then(start, open, BeginWrite(0, b, b + 2));
    var begun := With(open, 0, Direct(b, b, b + 2));
    var cut := CutMidway(start, begun, 0, [1], b);
    Then(start, cut, BuilderDone);
    assert Broken(cut.(builder := Finished), b);
  }

  /** Cut off in the middle of storing, right after byte `b`, with nobody else storing. */
  lemma CutMidway(start: Life, l: Life, c: nat, data: seq<byte>, b: nat) returns (m: Life)
    requires Reaches(start, l) && c in l.writers && (l.writers[c].Direct? || l.writers[c].Filling?)
    requires data != [] && data[|data| - 1] != 0 && l.writers[c].cur + |data| == b + 1 < Goal(l.writers[c]) <= |l.bytes|
    requires forall i :: !Unfinished(l.writers - {c}, i)
    ensures Reaches(start, m) && Quiet(m) && b < |m.bytes| == |l.bytes| && m.bytes[b] != 0
    ensures m.marked == l.marked && m.builder == l.builder
  {
    Then(start, l, StoreBytes(c, data));
    var stored := StoreNext(l, c, data);
    Then(start, stored, Cut(c));
    m := Lose(stored, c);
    assert m.writers == l.writers - {c};
  }

  /** A server's map can come to break its promise about any byte of its file but the last. */
  lemma CanBreakIff(size: nat, b: nat)
    ensures CanBreak(size, b) <==> b + 1 < size
  {
    if b + 1 < size {
      BreakingRun(size, b);
    } else if CanBreak(size, b) {
      var start, l :| Fresh(start) && |start.bytes| == size && Reaches(start, l) && Broken(l, b);
      var run :| CanRun(start, run) && Exec(start, run) == l;
      FreshInv(start);
      RunKeeps(start, run);
      SameSize(start, run);
    }
  }

  lemma {:induction false} SameSize(l: Life, run: seq<Step>)
    requires CanRun(l, run)
    ensures |Exec(l, run).bytes| == |l.bytes|
    decreases |run|
  {
    if run != [] {
      SameSize(Apply(l, run[0]), run[1..]);
    }
  }

  // ----- what follows -----

  ghost predicate Goes(l: Life, a: Step, m: Life) {
    Enabled(l, a) && Apply(l, a) == m
  }

  ghost predicate Leads(l: Life, run: seq<Step>, m: Life) {
    CanRun(l, run) && Exec(l, run) == m
  }

  lemma Two(l: Life, a: Step, m: Life, b: Step, n: Life)
    requires Goes(l, a, m) && Goes(m, b, n)
    ensures Leads(l, [a, b], n)
  {
    assert [a, b][1..] == [b] && [b][1..] == [];
    assert CanRun(n, [b][1..]) && Exec(n, [b][1..]) == n;
    assert CanRun(m, [b]) && Exec(m, [b]) == n;
  }

  lemma Joined(l: Life, p: seq<Step>, m: Life, q: seq<Step>, n: Life)
    requires Leads(l, p, m) && Leads(m, q, n)
    ensures Leads(l, p + q, n)
  {
    RunOn(l, p, q);
  }

  lemma {:induction false} RunOn(l: Life, p: seq<Step>, q: seq<Step>)
    requires CanRun(l, p) && CanRun(Exec(l, p), q)
    ensures CanRun(l, p + q) && Exec(l, p + q) == Exec(Exec(l, p), q)
    decreases |p|
  {
    if p == [] {
      assert p + q == q;
    } else {
      RunOn(Apply(l, p[0]), p[1..], q);
      assert (p + q)[0] == p[0] && (p + q)[1..] == p[1..] + q;
    }
  }

  lemma Counts(l: Life, c: nat, at: nat, n: nat, to: nat)
    requires at < to && n == BlockRun(at, to - at)
    ensures Goes(With(l, c, Choosing(at, to)), CountRun(c, at + n), With(l, c, Counted(at, at + n, to)))
  {
    assert Blocks(l.marked, at, n, at / BLOCK in l.marked);
    Replaced(l, c, Choosing(at, to), Counted(at, at + n, to));
  }

  lemma Tests(l: Life, c: nat, w: Writer)
    requires w.Counted?
    ensures Goes(With(l, c, w), TestBit(c), With(l, c, Tested(w, w.at / BLOCK in l.marked)))
  {
    Replaced(l, c, w, Tested(w, w.at / BLOCK in l.marked));
  }

  lemma Replaced(l: Life, c: nat, v: Writer, w: Writer)
    ensures With(With(l, c, v), c, w) == With(l, c, w)
  {
    assert l.writers[c := v][c := w] == l.writers[c := w];
  }

  lemma Begins(l: Life, c: nat, from: nat, to: nat)
    requires MapBuilt(l) && from < to <= |l.bytes| && c in l.writers && l.writers[c].Idle?
    ensures Goes(l, BeginWrite(c, from, to), With(l, c, Choosing(from, to)))
  {
  }

  lemma SkipsIt(l: Life, c: nat, b: nat)
    requires c in l.writers && l.writers[c].Idle?
    ensures Goes(With(l, c, Skipping(b, b + 1, b + 1)), SkipZeroes(c), l)
  {
    var m := With(l, c, Skipping(b, b + 1, b + 1));
    assert With(m, c, Idle).writers == l.writers;
  }

  function Looking(c: nat, b: nat): seq<Step> {
    [BeginWrite(c, b, b + 1), CountRun(c, b + 1)]
  }

  function Deciding(c: nat): seq<Step> {
    [TestBit(c), SkipZeroes(c)]
  }

  /** A client's write of one zero to byte `b`. */
  function ZeroWrite(c: nat, b: nat): seq<Step> {
    Looking(c, b) + Deciding(c)
  }

  /** From then on a zero written to that byte is taken, answered for and not stored. */
  lemma ZeroWriteLost(l: Life, c: nat, b: nat)
    requires Broken(l, b) && c in l.writers && l.writers[c].Idle?
    ensures Leads(l, ZeroWrite(c, b), l) && l.bytes[b] != 0
  {
    var w := Counted(b, b + 1, b + 1);
    Begins(l, c, b, b + 1);
    Counts(l, c, b, 1, b + 1);
    Tests(l, c, w);
    SkipsIt(l, c, b);
    Two(l, BeginWrite(c, b, b + 1), With(l, c, Choosing(b, b + 1)), CountRun(c, b + 1), With(l, c, w));
    Two(With(l, c, w), TestBit(c), With(l, c, Skipping(b, b + 1, b + 1)), SkipZeroes(c), l);
    Joined(l, Looking(c, b), With(l, c, w), Deciding(c), l);
  }

  // ----- and with the map built all along -----

  lemma ThenGoes(l: Life, m: Life, a: Step, n: Life)
    requires Reaches(l, m) && Goes(m, a, n)
    ensures Reaches(l, n)
  {
    Then(l, m, a);
  }

  /** From `l` to `m`, file and map became those of `x`, and client `c` turned into `w`. */
  ghost predicate Became(l: Life, m: Life, x: Store, c: nat, w: Writer) {
    && m.bytes == x.bytes && m.marked == x.marked && m.writers == l.writers[c := w]
    && m.builder == l.builder && m.left == l.left
  }

  /** bitset_run_count and bitset_is_set_at, one block at a time. */
  lemma Looks(start: Life, l: Life, c: nat, at: nat, n: nat, to: nat)
    requires Reaches(start, With(l, c, Choosing(at, to))) && at < to && n == BlockRun(at, to - at)
    ensures Reaches(start, With(l, c, Tested(Counted(at, at + n, to), at / BLOCK in l.marked)))
  {
    var one, two := With(l, c, Choosing(at, to)), With(l, c, Counted(at, at + n, to));
    Counts(l, c, at, n, to);
    ThenGoes(start, one, CountRun(c, at + n), two);
    Tests(l, c, Counted(at, at + n, to));
    ThenGoes(start, two, TestBit(c), With(l, c, Tested(Counted(at, at + n, to), at / BLOCK in l.marked)));
  }

  lemma TouchedBlock(at: nat, n: nat)
    requires 0 < n && at / BLOCK == (at + n - 1) / BLOCK
    ensures Touched(at, at + n) == {at / BLOCK}
  {
  }

  /** It stores `piece` at once. */
  lemma StoresIt(l: Life, c: nat, w: Writer, piece: seq<byte>)
    requires Storing(w) && w.cur == w.at && w.at + |piece| == Goal(w) <= |l.bytes| && (w.Copying? ==> w.data == piece)
    ensures Enabled(With(l, c, w), StoreBytes(c, piece))
    ensures Became(l, StoreNext(With(l, c, w), c, piece), Store(Splice(l.bytes, w.at, piece), l.marked), c, w.(cur := Goal(w)))
  {
    assert w.Copying? ==> w.data[0..][..|piece|] == piece;
  }

  lemma MarksIt(l: Life, one: Life, c: nat, v: Writer, bytes: seq<byte>)
    requires Storing(v) && v.at < v.cur == Goal(v) && v.at / BLOCK == (v.cur - 1) / BLOCK
    requires Became(l, one, Store(bytes, l.marked), c, v)
    ensures Enabled(one, MarkStored(c))
    ensures Became(l, Mark(one, c), Store(bytes, l.marked + {v.at / BLOCK}), c, AfterMark(v))
  {
    TouchedBlock(v.at, v.cur - v.at);
  }

  /** A client about to store `piece` does so and marks it. */
  lemma StoresAndMarks(start: Life, l: Life, c: nat, w: Writer, piece: seq<byte>) returns (m: Life)
    requires Reaches(start, With(l, c, w)) && Storing(w) && w.cur == w.at && w.at + |piece| == Goal(w) <= |l.bytes|
    requires (w.Copying? ==> w.data == piece) && 0 < |piece| && w.at / BLOCK == (w.at + |piece| - 1) / BLOCK
    ensures Reaches(start, m)
    ensures Became(l, m, Store(Splice(l.bytes, w.at, piece), l.marked + {w.at / BLOCK}), c, AfterMark(w.(cur := Goal(w))))
  {
    StoresIt(l, c, w, piece);
    Then(start, With(l, c, w), StoreBytes(c, piece));
    var one := StoreNext(With(l, c, w), c, piece);
    MarksIt(l, one, c, w.(cur := Goal(w)), Splice(l.bytes, w.at, piece));
    Then(start, one, MarkStored(c));
    m := Mark(one, c);
  }

  lemma SkipsBlock(start: Life, l: Life, c: nat, at: nat, n: nat, to: nat)
    requires Reaches(start, With(l, c, Skipping(at, at + n, to))) && 0 < n && at / BLOCK == (at + n - 1) / BLOCK
    ensures Reaches(start, With(l, c, NextRun(at + n, to)))
  {
    var one, w := With(l, c, Skipping(at, at + n, to)), NextRun(at + n, to);
    WithinBlock(at, n);
    assert With(one, c, w) == With(l, c, w);
    ThenGoes(start, one, SkipZeroes(c), With(l, c, w));
  }

  lemma FindsData(start: Life, l: Life, c: nat, at: nat, piece: seq<byte>, to: nat)
    requires Reaches(start, With(l, c, Skipping(at, at + |piece|, to))) && 0 < |piece|
    requires at / BLOCK == (at + |piece| - 1) / BLOCK && !AllZero(piece)
    ensures Reaches(start, With(l, c, Copying(at, at, piece, at + |piece|, to)))
  {
    var one, w := With(l, c, Skipping(at, at + |piece|, to)), Copying(at, at, piece, at + |piece|, to);
    WithinBlock(at, |piece|);
    assert With(one, c, w) == With(l, c, w);
    ThenGoes(start, one, FindData(c, piece), With(l, c, w));
  }

  lemma WritesClear(start: Life, l: Life, c: nat, at: nat, piece: seq<byte>, to: nat) returns (m: Life)
    requires Reaches(start, With(l, c, Skipping(at, at + |piece|, to))) && 0 < |piece| && at + |piece| <= |l.bytes|
    requires at / BLOCK == (at + |piece| - 1) / BLOCK && at / BLOCK !in l.marked
    ensures Reaches(start, m)
    ensures Became(l, m, StoreBlock(Store(l.bytes, l.marked), at, piece), c, NextRun(at + |piece|, to))
  {
    if AllZero(piece) {
      SkipsBlock(start, l, c, at, |piece|, to);
      m := With(l, c, NextRun(at + |piece|, to));
    } else {
      FindsData(start, l, c, at, piece, to);
      m := StoresAndMarks(start, l, c, Copying(at, at, piece, at + |piece|, to), piece);
    }
  }

  lemma WritesBlock(start: Life, l: Life, c: nat, at: nat, piece: seq<byte>, to: nat) returns (m: Life)
    requires Reaches(start, With(l, c, Choosing(at, to))) && at < to <= |l.bytes| && |piece| == BlockRun(at, to - at)
    ensures Reaches(start, m)
    ensures Became(l, m, StoreBlock(Store(l.bytes, l.marked), at, piece), c, NextRun(at + |piece|, to))
  {
    Looks(start, l, c, at, |piece|, to);
    if at / BLOCK in l.marked {
      m := StoresAndMarks(start, l, c, Filling(at, at, at + |piece|, to), piece);
    } else {
      m := WritesClear(start, l, c, at, piece, to);
    }
  }

  /** A write nobody disturbs is the one of SparseStores. */
  lemma {:induction false} Undisturbed(start: Life, l: Life, c: nat, at: nat, data: seq<byte>) returns (m: Life)
    requires Reaches(start, With(l, c, NextRun(at, at + |data|))) && MapBuilt(l) && at + |data| <= |l.bytes|
    ensures Reaches(start, m) && Became(l, m, SparseStore(Store(l.bytes, l.marked), at, data), c, Idle)
    decreases |data|
  {
    if data == [] {
      m := With(l, c, Idle);
    } else {
      var n := BlockRun(at, |data|);
      var mid := WritesBlock(start, l, c, at, data[..n], at + |data|);
      assert With(mid, c, NextRun(at + n, at + |data|)) == mid;
      m := Undisturbed(start, mid, c, at + n, data[n..]);
      assert m.writers == l.writers[c := Idle];
    }
  }

  lemma OneWrite(start: Life, l: Life, c: nat, b: nat) returns (m: Life)
    requires Reaches(start, l) && MapBuilt(l) && b < |l.bytes| && b / BLOCK !in l.marked
    requires c in l.writers && l.writers[c].Idle?
    ensures Reaches(start, m) && Became(l, m, Store(Splice(l.bytes, b, [1]), l.marked + {b / BLOCK}), c, Idle)
  {
    var one: seq<byte> := [1];
    Then(start, l, BeginWrite(c, b, b + 1));
    m := Undisturbed(start, l, c, b, one);
    OneBlock(Store(l.bytes, l.marked), b, one);
    assert one[0] != 0 && !AllZero(one);
  }

  lemma ClearRun(marked: set<nat>, k: nat)
    requires k !in marked && k + 1 !in marked
    ensures Blocks(marked, k * BLOCK, BLOCK + 2, false)
  {
  }

  lemma InLaterBlock(k: nat)
    ensures k * BLOCK / BLOCK == k && (k * BLOCK + BLOCK) / BLOCK == k + 1
  {
  }

  /**
   Even with the map built: client `a` counts a run of clear blocks, client `d` marks the first of
   them, `a` takes the bit it then finds set for the whole run, stores the payload as it comes and is
   cut off in a block that is still clear.
   */
  lemma RaceBreaks(start: Life, l: Life, a: nat, d: nat, k: nat) returns (m: Life)
    requires Reaches(start, l) && MapBuilt(l) && Quiet(l)
    requires a in l.writers && d in l.writers && a != d && l.writers[a].Idle? && l.writers[d].Idle?
    requires k !in l.marked && k + 1 !in l.marked && k * BLOCK + BLOCK + 1 < |l.bytes|
    ensures Reaches(start, m) && Broken(m, k * BLOCK + BLOCK)
  {
    var at := k * BLOCK;
    InLaterBlock(k);
    var w := Counted(at, at + BLOCK + 2, at + BLOCK + 2);
    CountsClear(start, l, a, k);
    var one := OneWrite(start, With(l, a, w), d, at);
    assert one.writers[a] == w && Others(l.writers, one.writers, a);
    m := FillsOver(start, l.writers, one, a, k);
  }

  lemma CountsClear(start: Life, l: Life, a: nat, k: nat)
    requires Reaches(start, l) && MapBuilt(l) && a in l.writers && l.writers[a].Idle?
    requires k !in l.marked && k + 1 !in l.marked && k * BLOCK + BLOCK + 1 < |l.bytes|
    ensures Reaches(start, With(l, a, Counted(k * BLOCK, k * BLOCK + BLOCK + 2, k * BLOCK + BLOCK + 2)))
  {
    var at := k * BLOCK;
    var to := at + BLOCK + 2;
    Begins(l, a, at, to);
    ThenGoes(start, l, BeginWrite(a, at, to), With(l, a, Choosing(at, to)));
    ClearRun(l.marked, k);
    Replaced(l, a, Choosing(at, to), Counted(at, to, to));
    ThenGoes(start, With(l, a, Choosing(at, to)), CountRun(a, to), With(l, a, Counted(at, to, to)));
  }

  ghost predicate Others(before: map<nat, Writer>, after: map<nat, Writer>, a: nat) {
    forall c :: c in after && c != a ==> c in before && after[c] == before[c]
  }

  lemma FillsOver(start: Life, others: map<nat, Writer>, l: Life, a: nat, k: nat) returns (m: Life)
    requires Reaches(start, l) && MapBuilt(l) && Others(others, l.writers, a) && (forall i :: !Unfinished(others, i))
    requires k in l.marked && k + 1 !in l.marked && k * BLOCK + BLOCK + 1 < |l.bytes|
    requires a in l.writers && l.writers[a] == Counted(k * BLOCK, k * BLOCK + BLOCK + 2, k * BLOCK + BLOCK + 2)
    ensures Reaches(start, m) && Broken(m, k * BLOCK + BLOCK)
  {
    InLaterBlock(k);
    Then(start, l, TestBit(a));
    var one := With(l, a, Tested(l.writers[a], true));
    QuietWithout(others, one.writers, a);
    m := CutMidway(start, one, a, Zeroes(BLOCK) + [1], k * BLOCK + BLOCK);
  }

  lemma QuietWithout(others: map<nat, Writer>, writers: map<nat, Writer>, a: nat)
    requires Others(others, writers, a) && (forall i :: !Unfinished(others, i))
    ensures forall i :: !Unfinished(writers - {a}, i)
  {
    forall i ensures !Unfinished(writers - {a}, i) {
      if Unfinished(writers - {a}, i) {
        var c :| c in writers - {a} && i in Stored(writers[c]);
        assert c in others && i in Stored(others[c]);
        assert Unfinished(others, i);
      }
    }
  }
}
