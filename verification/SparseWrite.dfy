/**
 Storing a client's payload in the mapped file without allocating blocks that would only hold
 zeroes (write_not_zeroes, src/server/client.c:105-212, and readloop, src/common/ioutil.c:144-165).
 Source and destination of a migration both run this code.
 */
module SparseWrite {
  import opened Bytes
  import opened EventStream
  import opened Bitsets
  import opened SparseStores

  /** A connection: what the peer still delivers before it stops, and what was sent to it. */
  class Socket {
    var incoming: seq<byte>
    var sent: seq<byte>

    constructor (incoming: seq<byte>)
      ensures this.incoming == incoming && sent == []
    {
      this.incoming, sent := incoming, [];
    }

    /** readloop: any pattern of partial reads, until `size` bytes have come or the peer stops. */
    method ReadLoop(size: nat) returns (data: seq<byte>, ok: bool)
      modifies this`incoming
      ensures data == old(incoming)[..Min(size, |old(incoming)|)]
      ensures incoming == old(incoming)[|data|..]
      ensures ok <==> |data| == size
    {
      data := [];
      while |data| < size
        invariant |data| <= Min(size, |old(incoming)|)
        invariant data == old(incoming)[..|data|] && incoming == old(incoming)[|data|..]
      {
        if incoming == [] {
          return data, false;
        }
        var result :| 1 <= result <= size - |data| && result <= |incoming|;
        assert old(incoming)[|data|..|data| + result] == incoming[..result];
        data := data + incoming[..result];
        incoming := incoming[result..];
      }
      ok := true;
    }

    /** writeloop on a connection that stays up. */
    method WriteLoop(data: seq<byte>)
      modifies this`sent
      ensures sent == old(sent) + data
    {
      var written := 0;
      var before := sent;
      while written < |data|
        invariant 0 <= written <= |data| && sent == before + data[..written]
      {
        var result :| 1 <= result <= |data| - written;
        assert data[..written] + data[written..written + result] == data[..written + result];
        sent := sent + data[written..written + result];
        written := written + result;
      }
    }
  }

  // ----- zero blocks -----

  /** `zerobuffer[0] == 0 && memcmp(zerobuffer, zerobuffer + 1, n - 1) == 0` */
  predicate LooksZero(z: seq<byte>)
    requires z != []
  {
    z[0] == 0 && z[..|z| - 1] == z[1..]
  }

  lemma {:induction false} ShiftedEqual(z: seq<byte>, i: nat)
    requires z != [] && LooksZero(z) && i < |z|
    ensures z[i] == 0
  {
    if i > 0 {
      ShiftedEqual(z, i - 1);
      assert z[..|z| - 1][i - 1] == z[1..][i - 1];
    }
  }

  lemma LooksZeroIff(z: seq<byte>)
    requires z != []
    ensures LooksZero(z) <==> forall i :: 0 <= i < |z| ==> z[i] == 0
  {
    if LooksZero(z) {
      forall i | 0 <= i < |z| ensures z[i] == 0 {
        ShiftedEqual(z, i);
      }
    }
  }

  // ----- events -----

  /** Every byte of [lo, hi) that differs is named by a change event appended to the log since. */
  ghost predicate Announced(log: seq<Entry>, log': seq<Entry>, was: seq<byte>, now: seq<byte>, lo: nat, hi: nat)
    requires |was| == |now| && hi <= |was|
  {
    && log <= log'
    && forall i :: lo <= i < hi && was[i] != now[i] ==>
         exists j :: |log| <= j < |log'| && Names(log'[j], i)
  }

  /** Only change events inside [lo, hi) were appended. */
  ghost predicate OnlyWithin(log: seq<Entry>, log': seq<Entry>, lo: nat, hi: nat) {
    && log <= log'
    && forall j :: |log| <= j < |log'| ==>
         log'[j].event == Set && 0 < log'[j].len && lo <= log'[j].from && log'[j].from + log'[j].len <= hi
  }

  lemma FirstBlock(marked: set<nat>, at: nat, n: nat)
    requires 0 < n && Blocks(marked, at, n, false)
    ensures at / BLOCK !in marked
  {
    DivMonotone(at, at + n - 1, BLOCK);
  }

  /** Marking the block of [at, at + n) says nothing about the blocks after it. */
  lemma LaterBlocks(marked: set<nat>, marked': set<nat>, at: nat, n: nat, run: nat)
    requires 0 < n <= run && Blocks(marked, at, run, false) && marked' - marked <= {at / BLOCK}
    requires at / BLOCK == (at + n - 1) / BLOCK && (n == run || (at + n) % BLOCK == 0)
    ensures n < run ==> Blocks(marked', at + n, run - n, false)
  {
    if n < run {
      forall k | (at + n) / BLOCK <= k <= (at + run - 1) / BLOCK ensures k !in marked' {
        assert k !in marked && k != at / BLOCK;
        assert k !in marked' - marked;
      }
    }
  }

  /**
   The image, its map, the log of events posted so far, the bytes still to come; and the copy of the
   image held by somebody who reads the bytes of an event at the moment it is posted.
   */
  datatype Snap = Snap(bytes: seq<byte>, marked: set<nat>, log: seq<Entry>, inc: seq<byte>, copy: seq<byte>)

  function Held(x: Snap): Store {
    Store(x.bytes, x.marked)
  }

  /**
   From `a` to `b` the first `posted` bytes of the socket were stored sparsely at `from`, those up
   to `stored` after them plainly, in blocks that were marked; and the events posted meanwhile
   are changes inside the first `posted`, naming every one that differs if the stream is on.
   */
  ghost predicate Wrote(a: Snap, b: Snap, from: nat, stored: nat, posted: nat, streaming: bool) {
    && posted <= stored <= |a.inc| && from + stored <= |a.bytes|
    && var x := SparseStore(Held(a), from, a.inc[..posted]);
       && Held(b) == Store(Splice(x.bytes, from + posted, a.inc[posted..stored]), x.marked)
       && (forall i :: from + posted <= i < from + stored ==> i / BLOCK in x.marked)
       && OnlyWithin(a.log, b.log, from, from + posted)
       && (if streaming then Announced(a.log, b.log, a.bytes, x.bytes, from, from + posted) else b.log == a.log)
       && (streaming ==> Followed(a, b, from + posted, from + stored))
  }

  /** Where the copy was right before, it is right again, but for [lo, hi). */
  ghost predicate Followed(a: Snap, b: Snap, lo: nat, hi: nat) {
    |a.copy| == |a.bytes| ==>
      && |b.copy| == |b.bytes| == |a.bytes|
      && forall i :: 0 <= i < |a.bytes| && !(lo <= i < hi) && a.copy[i] == a.bytes[i] ==> b.copy[i] == b.bytes[i]
  }

  /**
   One piece of a write: the next `n` bytes of the socket are stored sparsely at `at`, and then
   either their one event is posted or, when nothing changed, none is.
   */
  ghost predicate Piece(x: Snap, y: Snap, at: nat, n: nat, streaming: bool) {
    && 0 < n <= |x.inc| && at + n <= |x.bytes| && y.inc == x.inc[n..]
    && Held(y) == SparseStore(Held(x), at, x.inc[..n])
    && (|| (y.bytes == Splice(x.bytes, at, x.inc[..n]) && y.log == if streaming then x.log + [Entry(Set, at, n)] else x.log)
        || (y.bytes == x.bytes && y.log == x.log))
  }

  /** Somebody reads `data` at `at`. */
  function ReadOff(copy: seq<byte>, at: nat, data: seq<byte>): (c: seq<byte>)
    ensures |c| == |copy|
  {
    if at + |data| <= |copy| then Splice(copy, at, data) else copy
  }

  /** The states between the pieces of one write, each with the payload bytes dealt with by then. */
  datatype Trail = Start(s: Snap, done: nat) | Then(before: Trail, n: nat, s: Snap, done: nat)

  ghost function Root(t: Trail): Snap {
    match t case Start(s, _) => s case Then(before, _, _, _) => Root(before)
  }

  /** Another piece can follow: none has gone before, or the last one ended with its block. */
  predicate AtBoundary(done: nat, at: nat) {
    done == 0 || at % BLOCK == 0
  }

  ghost predicate IsTrail(t: Trail, from: nat, streaming: bool) {
    match t
    case Start(s, done) => done == 0 && from <= |s.bytes|
    case Then(before, n, s, done) =>
      && IsTrail(before, from, streaming) && AtBoundary(before.done, from + before.done)
      && done == before.done + n && Piece(before.s, s, from + before.done, n, streaming)
      && (streaming ==> Followed(before.s, s, 0, 0))
  }

  ghost function Extended(t: Trail, n: nat, s: Snap, from: nat, at: nat, streaming: bool): (t': Trail)
    requires IsTrail(t, from, streaming) && at == from + t.done && AtBoundary(t.done, at) && Piece(t.s, s, at, n, streaming)
    requires streaming ==> Followed(t.s, s, 0, 0)
    ensures IsTrail(t', from, streaming) && Root(t') == Root(t) && t'.s == s && t'.done == t.done + n
  {
    Then(t, n, s, t.done + n)
  }

  /** The pieces of a trail are one long sparse write. */
  lemma {:induction false} TrailBytes(t: Trail, from: nat, streaming: bool)
    requires IsTrail(t, from, streaming)
    ensures t.done <= |Root(t).inc| && t.s.inc == Root(t).inc[t.done..]
    ensures from + t.done <= |Root(t).bytes| && Held(t.s) == SparseStore(Held(Root(t)), from, Root(t).inc[..t.done])
  {
    var a := Root(t);
    match t
    case Start(_, _) =>
    case Then(before, n, s, done) =>
      TrailBytes(before, from, streaming);
      var k := before.done;
      PieceBytes(a, before.s, s, from, k, n, streaming);
  }

  lemma PieceBytes(a: Snap, x: Snap, y: Snap, from: nat, k: nat, n: nat, streaming: bool)
    requires k <= |a.inc| && from + k <= |a.bytes| && x.inc == a.inc[k..] && Held(x) == SparseStore(Held(a), from, a.inc[..k])
    requires AtBoundary(k, from + k) && Piece(x, y, from + k, n, streaming)
    ensures k + n <= |a.inc| && from + k + n <= |a.bytes| && y.inc == a.inc[k + n..]
    ensures Held(y) == SparseStore(Held(a), from, a.inc[..k + n])
  {
    var head, next := a.inc[..k], x.inc[..n];
    assert x.inc[n..] == a.inc[k + n..];
    assert head + next == a.inc[..k + n];
    SparseSplit(Held(a), from, head, next, a.inc[..k + n], from + k);
  }

  lemma {:induction false} TrailEvents(t: Trail, from: nat, streaming: bool)
    requires IsTrail(t, from, streaming)
    ensures OnlyWithin(Root(t).log, t.s.log, from, from + t.done)
    ensures !streaming ==> t.s.log == Root(t).log
  {
    match t
    case Start(_, _) =>
    case Then(before, n, s, done) => TrailEvents(before, from, streaming);
  }

  /** Bytes outside [at, at + n) are the same, and those changed inside are named by the next event. */
  ghost predicate Tells(x: Snap, y: Snap, at: nat, n: nat) {
    && |y.bytes| == |x.bytes| && x.log <= y.log
    && (forall i :: 0 <= i < |x.bytes| && !(at <= i < at + n) ==> y.bytes[i] == x.bytes[i])
    && (forall i :: at <= i < at + n && i < |x.bytes| && y.bytes[i] != x.bytes[i] ==>
          |y.log| > |x.log| && Names(y.log[|x.log|], i))
  }

  lemma PieceTells(x: Snap, y: Snap, at: nat, n: nat)
    requires Piece(x, y, at, n, true)
    ensures Tells(x, y, at, n) && at + n <= |x.bytes|
  {
    StoreFrame(Held(x), at, x.inc[..n]);
  }

  /** From `a` on, each byte changed in [from, to) is named by an event posted since, and no later byte has changed. */
  ghost predicate ToldSince(a: Snap, y: Snap, from: nat, to: nat) {
    && |y.bytes| == |a.bytes| && to <= |a.bytes| && Announced(a.log, y.log, a.bytes, y.bytes, from, to)
    && (forall i :: to <= i < |a.bytes| ==> y.bytes[i] == a.bytes[i])
  }

  lemma ToldOn(a: Snap, x: Snap, y: Snap, from: nat, at: nat, n: nat)
    requires from <= at && at + n <= |a.bytes| && ToldSince(a, x, from, at) && Tells(x, y, at, n)
    ensures ToldSince(a, y, from, at + n)
  {
    forall i | from <= i < at + n && a.bytes[i] != y.bytes[i]
      ensures exists j :: |a.log| <= j < |y.log| && Names(y.log[j], i)
    {
      if i < at {
        var j :| |a.log| <= j < |x.log| && Names(x.log[j], i);
        assert Names(y.log[j], i);
      } else {
        assert Names(y.log[|x.log|], i);
      }
    }
  }

  /** Each byte a trail changes is named by an event it posted. */
  lemma {:induction false} TrailAnnounces(t: Trail, from: nat)
    requires IsTrail(t, from, true)
    ensures ToldSince(Root(t), t.s, from, from + t.done)
  {
    match t
    case Start(_, _) =>
    case Then(before, n, s, done) =>
      TrailAnnounces(before, from);
      PieceTells(before.s, s, from + before.done, n);
      ToldOn(Root(t), before.s, s, from, from + before.done, n);
  }

  /** Whoever reads along has what was stored. */
  lemma {:induction false} TrailFollowed(t: Trail, from: nat)
    requires IsTrail(t, from, true)
    ensures Followed(Root(t), t.s, 0, 0)
  {
    match t
    case Start(_, _) =>
    case Then(before, n, s, done) =>
      TrailFollowed(before, from);
      FollowedOn(Root(t), before.s, s);
  }

  lemma FollowedOn(a: Snap, b: Snap, c: Snap)
    requires Followed(a, b, 0, 0) && Followed(b, c, 0, 0)
    ensures Followed(a, c, 0, 0)
  {
  }

  /** A trail is one long sparse write. */
  lemma TrailWrote(t: Trail, from: nat, streaming: bool)
    requires IsTrail(t, from, streaming)
    ensures t.done <= |Root(t).inc| && t.s.inc == Root(t).inc[t.done..]
    ensures Wrote(Root(t), t.s, from, t.done, t.done, streaming)
  {
    TrailBytes(t, from, streaming);
    TrailEvents(t, from, streaming);
    var a, n := Root(t), t.done;
    assert a.inc[n..n] == [];
    assert Splice(t.s.bytes, from + n, []) == t.s.bytes;
    if streaming {
      TrailAnnounces(t, from);
      TrailFollowed(t, from);
    }
  }

  /** An allocated run cut short: its bytes are stored, its event never posted. */
  lemma TornRun(a: Snap, b: Snap, c: Snap, from: nat, n: nat, streaming: bool)
    requires Wrote(a, b, from, n, n, streaming) && b.inc == a.inc[n..]
    requires from + n + |b.inc| <= |b.bytes| && (forall i :: from + n <= i < from + n + |b.inc| ==> i / BLOCK in b.marked)
    requires c == b.(bytes := Splice(b.bytes, from + n, b.inc), inc := [])
    ensures Wrote(a, c, from, |a.inc|, n, streaming)
  {
    assert a.inc[n..n] == [];
    assert a.inc[n..|a.inc|] == b.inc;
    var x := SparseStore(Held(a), from, a.inc[..n]);
    assert Splice(x.bytes, from + n, []) == x.bytes;
  }

  /** While the promise holds, all of it was a plain copy, and the promise holds afterwards. */
  lemma WrotePlainly(a: Snap, b: Snap, from: nat, stored: nat, posted: nat, streaming: bool)
    requires Wrote(a, b, from, stored, posted, streaming) && SparseImage(a.marked, a.bytes)
    ensures b.bytes == Splice(a.bytes, from, a.inc[..stored]) && SparseImage(b.marked, b.bytes)
  {
    var p, q := a.inc[..posted], a.inc[posted..stored];
    SparseIsPlain(Held(a), from, p);
    SpliceThenSplice(a.bytes, from, p, q);
    assert p + q == a.inc[..stored];
  }

  lemma OneBlockMarked(b: nat)
    ensures Interval(b * BLOCK / BLOCK, (b * BLOCK + 1 - 1) / BLOCK + 1) == {b}
  {
  }

  lemma PostFollowed(a: Snap, b: Snap, at: nat, streaming: bool)
    requires at < |a.bytes| && b.bytes == a.bytes
    requires b.copy == if streaming then ReadOff(a.copy, at, a.bytes[at..at + 1]) else a.copy
    ensures Followed(a, b, 0, 0)
  {
  }

  // ----- the client's view of the image -----

  class Image {
    const mapped: array<byte>
    const alloc: Bitset
    const sock: Socket
    /** The image as somebody has it who reads the bytes of an event at the moment it is posted. */
    ghost var copy: seq<byte>

    constructor (mapped: array<byte>, alloc: Bitset, sock: Socket)
      ensures this.mapped == mapped && this.alloc == alloc && this.sock == sock && copy == mapped[..]
    {
      this.mapped, this.alloc, this.sock := mapped, alloc, sock;
      copy := mapped[..];
    }

    /** bitset_set_range, as a reader of the stream sees it. */
    method Post(at: nat, n: nat)
      requires Valid() && 0 < at + n <= alloc.size
      modifies this`copy, alloc`marked, alloc.bits, alloc.stream, alloc.stream.entries
      ensures Valid() && alloc.stream.entries == old(alloc.stream.entries)
      ensures alloc.marked == old(alloc.marked) + Interval(at / BLOCK, (at + n - 1) / BLOCK + 1)
      ensures alloc.stream.log == if alloc.streamEnabled then old(alloc.stream.log) + [Entry(Set, at, n)] else old(alloc.stream.log)
      ensures copy == if alloc.streamEnabled then ReadOff(old(copy), at, mapped[at..at + n]) else old(copy)
    {
      alloc.BlockInField(at + n - 1);
      alloc.SetRange(at, n);
      if alloc.streamEnabled {
        copy := ReadOff(copy, at, mapped[at..at + n]);
      }
    }

    ghost predicate Valid()
      reads this, alloc, alloc.bits, alloc.stream, alloc.stream.entries
    {
      && alloc.Valid()
      && alloc.resolution == BLOCK && mapped.Length == alloc.size
      && mapped as object != alloc.bits && mapped as object != alloc.stream.entries
    }

    /** What the builder's thread does meanwhile: marks blocks. */
    method MarkBlocks(blocks: seq<nat>)
      requires Valid() && (forall b :: b in blocks ==> b * BLOCK < alloc.size)
      modifies this`copy, alloc`marked, alloc.bits, alloc.stream, alloc.stream.entries
      ensures Valid() && alloc.stream.entries == old(alloc.stream.entries)
      ensures alloc.marked == old(alloc.marked) + set b | b in blocks
      ensures Followed(old(Now()), Now(), 0, 0)
    {
      for k := 0 to |blocks|
        invariant Valid() && alloc.stream.entries == old(alloc.stream.entries)
        invariant alloc.marked == old(alloc.marked) + set b | b in blocks[..k]
        invariant Followed(old(Now()), Now(), 0, 0)
      {
        ghost var was := Now();
        assert blocks[k] in blocks;
        MarkBlock(blocks[k]);
        FollowedOn(old(Now()), was, Now());
        assert blocks[..k + 1] == blocks[..k] + [blocks[k]];
      }
      assert blocks[..|blocks|] == blocks;
    }

    method MarkBlock(b: nat)
      requires Valid() && b * BLOCK < alloc.size
      modifies this`copy, alloc`marked, alloc.bits, alloc.stream, alloc.stream.entries
      ensures Valid() && alloc.stream.entries == old(alloc.stream.entries)
      ensures alloc.marked == old(alloc.marked) + {b} && Followed(old(Now()), Now(), 0, 0)
    {
      OneBlockMarked(b);
      Post(b * BLOCK, 1);
      PostFollowed(old(Now()), Now(), b * BLOCK, alloc.streamEnabled);
    }

    /** The run that RunCountEx reports, in blocks. */
    lemma BlocksOfRun(at: nat, n: nat, value: bool)
      requires Valid() && 0 < n
      requires forall i :: at <= i < at + n ==> alloc.IsSet(i) == value
      ensures Blocks(alloc.marked, at, n, value)
    {
      forall k | at / BLOCK <= k <= (at + n - 1) / BLOCK ensures k in alloc.marked <==> value {
        var i := if k == at / BLOCK then at else k * BLOCK;
        assert at <= i < at + n && i / BLOCK == k;
        assert alloc.IsSet(i) == value;
      }
    }

    ghost function Now(): Snap
      reads this`copy, mapped, alloc`marked, alloc.stream, sock
    {
      Snap(mapped[..], alloc.marked, alloc.stream.log, sock.incoming, copy)
    }

    /** The trail ends in the present state. */
    ghost predicate On(t: Trail, from: nat)
      reads this`copy, mapped, alloc, alloc.stream, sock
    {
      t.s == Now() && IsTrail(t, from, alloc.streamEnabled)
    }

    /** The branch of write_not_zeroes for a run of allocated blocks. */
    method WriteAllocated(at: nat, run: nat) returns (ok: bool)
      requires Valid() && 0 < run && at + run <= alloc.size
      requires Blocks(alloc.marked, at, run, true)
      modifies this`copy, mapped, alloc`marked, alloc.bits, alloc.stream, alloc.stream.entries, sock`incoming
      ensures Valid() && alloc.stream.entries == old(alloc.stream.entries)
      ensures ok <==> |old(sock.incoming)| >= run
      ensures ok ==> Piece(old(Now()), Now(), at, run, alloc.streamEnabled)
      ensures ok && alloc.streamEnabled ==> Followed(old(Now()), Now(), 0, 0)
      ensures !ok ==> Now() == old(Now()).(bytes := Splice(old(mapped[..]), at, old(sock.incoming)), inc := [])
    {
      var data;
      data, ok := sock.ReadLoop(run);
      CopyIn(mapped, at, data);
      if ok {
        Post(at, run);
        assert mapped[at..at + run] == data;
        AllMarked(old(Held(Now())), at, data);
        assert alloc.marked == old(alloc.marked);
      }
    }

    /** One block, or part of one, of a run of unallocated blocks. */
    method WriteBlock(at: nat, blockrun: nat) returns (ok: bool)
      requires Valid() && 0 < blockrun && at + blockrun <= alloc.size
      requires at / BLOCK == (at + blockrun - 1) / BLOCK && at / BLOCK !in alloc.marked
      modifies this`copy, mapped, alloc`marked, alloc.bits, alloc.stream, alloc.stream.entries, sock`incoming
      ensures Valid() && alloc.stream.entries == old(alloc.stream.entries)
      ensures ok <==> |old(sock.incoming)| >= blockrun
      ensures ok ==> Piece(old(Now()), Now(), at, blockrun, alloc.streamEnabled)
      ensures ok && alloc.streamEnabled ==> Followed(old(Now()), Now(), 0, 0)
      ensures !ok ==> Now() == old(Now()).(inc := [])
      ensures alloc.marked - old(alloc.marked) <= {at / BLOCK}
    {
      var data;
      data, ok := sock.ReadLoop(blockrun);
      if ok {
        LooksZeroIff(data);
        OneBlock(old(Held(Now())), at, data);
        if !LooksZero(data) {
          CopyIn(mapped, at, data);
          Post(at, blockrun);
          assert mapped[at..at + blockrun] == data;
          assert alloc.marked == old(alloc.marked) + {at / BLOCK};
        }
      }
    }

    /** A write that began at `from` has come to `at`, along the trail `t`. */
    ghost predicate Writing(t: Trail, from: nat, at: nat)
      reads this, mapped, sock, alloc, alloc.bits, alloc.stream, alloc.stream.entries
    {
      Valid() && On(t, from) && at == from + t.done
    }

    /** The state in which a write breaks off after the trail `t`. */
    ghost predicate BrokeOff(t: Trail, from: nat, torn: bool)
      reads this, mapped, sock, alloc, alloc.bits, alloc.stream, alloc.stream.entries
    {
      && Valid() && IsTrail(t, from, alloc.streamEnabled)
      && if torn
         then && from + t.done + |t.s.inc| <= |t.s.bytes|
              && (forall i :: from + t.done <= i < from + t.done + |t.s.inc| ==> i / BLOCK in t.s.marked)
              && Now() == t.s.(bytes := Splice(t.s.bytes, from + t.done, t.s.inc), inc := [])
         else Now() == t.s.(inc := [])
    }

    /** WriteBlock, and the trail it leaves. */
    method BlockTurn(at: nat, n: nat, ghost t: Trail, ghost from: nat) returns (ok: bool, ghost t': Trail)
      requires Writing(t, from, at) && AtBoundary(t.done, at) && 0 < n && at + n <= alloc.size
      requires at / BLOCK == (at + n - 1) / BLOCK && at / BLOCK !in alloc.marked
      modifies this`copy, mapped, alloc`marked, alloc.bits, alloc.stream, alloc.stream.entries, sock`incoming
      ensures alloc.stream.entries == old(alloc.stream.entries)
      ensures ok <==> |old(sock.incoming)| >= n
      ensures if ok then Writing(t', from, at + n) && |sock.incoming| + n == |old(sock.incoming)|
              else t' == t && BrokeOff(t, from, false)
      ensures Root(t') == Root(t) && alloc.marked - old(alloc.marked) <= {at / BLOCK}
    {
      t' := t;
      ok := WriteBlock(at, n);
      if ok {
        t' := Extended(t, n, Now(), from, at, alloc.streamEnabled);
      }
    }

    /** One turn of the inner loop of write_not_zeroes. */
    method SparseTurn(at: nat, left: nat, ghost t: Trail, ghost from: nat) returns (ok: bool, blockrun: nat, ghost t': Trail)
      requires Writing(t, from, at) && AtBoundary(t.done, at) && 0 < left && at + left <= alloc.size
      requires Blocks(alloc.marked, at, left, false)
      modifies this`copy, mapped, alloc`marked, alloc.bits, alloc.stream, alloc.stream.entries, sock`incoming
      ensures alloc.stream.entries == old(alloc.stream.entries)
      ensures blockrun == BlockRun(at, left) && (ok <==> |old(sock.incoming)| >= blockrun)
      ensures if ok then Writing(t', from, at + blockrun) && |sock.incoming| + blockrun == |old(sock.incoming)|
              else t' == t && BrokeOff(t, from, false)
      ensures Root(t') == Root(t)
      ensures ok && blockrun < left ==> Blocks(alloc.marked, at + blockrun, left - blockrun, false)
    {
      blockrun := BlockRun(at, left);
      FirstBlock(alloc.marked, at, left);
      ok, t' := BlockTurn(at, blockrun, t, from);
      if ok {
        LaterBlocks(old(alloc.marked), alloc.marked, at, blockrun, left);
      }
    }

    /** The branch of write_not_zeroes for a run of unallocated blocks. */
    method WriteSparse(start: nat, run: nat, ghost t: Trail, ghost from: nat) returns (ok: bool, ghost t': Trail)
      requires Writing(t, from, start) && AtBoundary(t.done, start) && 0 < run && start + run <= alloc.size
      requires Blocks(alloc.marked, start, run, false)
      modifies this`copy, mapped, alloc`marked, alloc.bits, alloc.stream, alloc.stream.entries, sock`incoming
      ensures alloc.stream.entries == old(alloc.stream.entries)
      ensures ok <==> |old(sock.incoming)| >= run
      ensures Root(t') == Root(t)
      ensures if ok then Writing(t', from, start + run) && |sock.incoming| + run == |old(sock.incoming)|
              else BrokeOff(t', from, false) && t'.done < t.done + run
    {
      var at, left: nat := start, run;
      t' := t;
      while left > 0
        invariant alloc.stream.entries == old(alloc.stream.entries)
        invariant at + left == start + run && Writing(t', from, at) && Root(t') == Root(t)
        invariant |sock.incoming| + (at - start) == |old(sock.incoming)|
        invariant left > 0 ==> AtBoundary(t'.done, at) && Blocks(alloc.marked, at, left, false)
      {
        var blockrun;
        ok, blockrun, t' := SparseTurn(at, left, t', from);
        if !ok {
          return;
        }
        at, left := at + blockrun, left - blockrun;
      }
      ok := true;
    }

    /** The run of like blocks at `at`, clipped to what is left to write; it ends there or with a block. */
    method FindRun(at: nat, left: nat) returns (run: nat, isSet: bool)
      requires Valid() && 0 < left && at + left <= alloc.size
      ensures 0 < run <= left && Blocks(alloc.marked, at, run, isSet)
      ensures run < left ==> (at + run) % BLOCK == 0
    {
      run, isSet := alloc.RunCountEx(at, left);
      if run > left {
        run := left;
      }
      isSet := alloc.IsSetAt(at);
      BlocksOfRun(at, run, isSet);
      if run < left {
        ChangeAtBoundary(at + run, isSet);
      }
    }

    /** Where the bit changes from one byte to the next, a block ends. */
    lemma ChangeAtBoundary(i: nat, value: bool)
      requires Valid() && 0 < i && alloc.IsSet(i - 1) == value && alloc.IsSet(i) != value
      ensures i % BLOCK == 0
    {
      BackOne(i, BLOCK);
    }

    lemma BreaksOff(t: Trail, from: nat, at: nat, run: nat)
      requires Valid() && IsTrail(t, from, alloc.streamEnabled) && at == from + t.done
      requires |t.s.inc| < run && at + run <= |t.s.bytes| && Blocks(t.s.marked, at, run, true)
      requires Now() == t.s.(bytes := Splice(t.s.bytes, at, t.s.inc), inc := [])
      ensures BrokeOff(t, from, true)
    {
      forall i | at <= i < at + |t.s.inc| ensures i / BLOCK in t.s.marked {
        ByteOfRun(t.s.marked, at, run, i);
      }
    }

    /** WriteAllocated, and the trail it leaves. */
    method AllocatedTurn(at: nat, run: nat, ghost t: Trail, ghost from: nat) returns (ok: bool, ghost t': Trail)
      requires Writing(t, from, at) && AtBoundary(t.done, at) && 0 < run && at + run <= alloc.size
      requires Blocks(alloc.marked, at, run, true)
      modifies this`copy, mapped, alloc`marked, alloc.bits, alloc.stream, alloc.stream.entries, sock`incoming
      ensures alloc.stream.entries == old(alloc.stream.entries)
      ensures ok <==> |old(sock.incoming)| >= run
      ensures Root(t') == Root(t)
      ensures if ok then Writing(t', from, at + run) && |sock.incoming| + run == |old(sock.incoming)|
              else BrokeOff(t', from, true) && t'.done < t.done + run
    {
      t' := t;
      ok := WriteAllocated(at, run);
      if ok {
        t' := Extended(t, run, Now(), from, at, alloc.streamEnabled);
      } else {
        BreaksOff(t, from, at, run);
      }
    }

    /** One turn of the outer loop of write_not_zeroes. */
    method WriteRun(at: nat, left: nat, ghost t: Trail, ghost from: nat)
        returns (ok: bool, run: nat, ghost t': Trail, ghost torn: bool)
      requires Writing(t, from, at) && AtBoundary(t.done, at) && 0 < left && at + left <= alloc.size
      modifies this`copy, mapped, alloc`marked, alloc.bits, alloc.stream, alloc.stream.entries, sock`incoming
      ensures alloc.stream.entries == old(alloc.stream.entries)
      ensures 0 < run <= left && (ok <==> |old(sock.incoming)| >= run)
      ensures run < left ==> (at + run) % BLOCK == 0
      ensures Root(t') == Root(t)
      ensures if ok then Writing(t', from, at + run) && |sock.incoming| + run == |old(sock.incoming)|
              else BrokeOff(t', from, torn) && t'.done < t.done + run
    {
      var isSet;
      run, isSet := FindRun(at, left);
      torn := isSet;
      if isSet {
        ok, t' := AllocatedTurn(at, run, t, from);
      } else {
        ok, t' := WriteSparse(at, run, t, from);
      }
    }

    /** The outer loop of write_not_zeroes. */
    method WriteRuns(from: nat, len: nat) returns (ok: bool, ghost t: Trail, ghost torn: bool)
      requires Valid() && from + len <= alloc.size
      modifies this`copy, mapped, alloc`marked, alloc.bits, alloc.stream, alloc.stream.entries, sock`incoming
      ensures alloc.stream.entries == old(alloc.stream.entries)
      ensures ok <==> |old(sock.incoming)| >= len
      ensures Root(t) == old(Now())
      ensures if ok then Writing(t, from, from + len) else BrokeOff(t, from, torn) && t.done < len
    {
      var at, left: nat := from, len;
      t, torn := Trail.Start(Now(), 0), false;
      while left > 0
        invariant alloc.stream.entries == old(alloc.stream.entries)
        invariant at + left == from + len && Writing(t, from, at) && Root(t) == old(Now())
        invariant left > 0 ==> AtBoundary(t.done, at)
        invariant |sock.incoming| + (at - from) == |old(sock.incoming)|
      {
        var run;
        ok, run, t, torn := WriteRun(at, left, t, from);
        if !ok {
          return;
        }
        at, left := at + run, left - run;
      }
      ok := true;
    }

    /**
     write_not_zeroes, whatever the map says.  On success [from, from + len) is stored block by
     block, except where a clear block was to get zeroes, and exactly `len` bytes were taken from
     the socket.  When the peer stops early that holds of the first `posted` bytes; the ones from
     there to `stored` belong to an allocated run cut short and are the only changed bytes
     without an event.  WrotePlainly says what this comes to while the promise holds.
     */
    method WriteNotZeroes(from: nat, len: nat) returns (ok: bool, ghost stored: nat, ghost posted: nat)
      requires Valid() && from + len <= alloc.size
      modifies this`copy, mapped, alloc`marked, alloc.bits, alloc.stream, alloc.stream.entries, sock`incoming
      ensures Valid() && alloc.stream.entries == old(alloc.stream.entries)
      ensures ok <==> |old(sock.incoming)| >= len
      ensures if ok then posted == stored == len && sock.incoming == old(sock.incoming)[len..]
              else stored < len && sock.incoming == []
      ensures Wrote(old(Now()), Now(), from, stored, posted, alloc.streamEnabled)
    {
      ghost var t, torn;
      ok, t, torn := WriteRuns(from, len);
      if ok {
        TrailWrote(t, from, alloc.streamEnabled);
        stored, posted := len, len;
      } else {
        stored, posted := CutShort(t, from, torn);
      }
    }

    lemma CutShort(t: Trail, from: nat, torn: bool) returns (stored: nat, posted: nat)
      requires BrokeOff(t, from, torn)
      ensures posted == t.done && stored == if torn then |Root(t).inc| else posted
      ensures Wrote(Root(t), Now(), from, stored, posted, alloc.streamEnabled)
    {
      TrailWrote(t, from, alloc.streamEnabled);
      posted := t.done;
      stored := posted;
      if torn {
        stored := |Root(t).inc|;
        TornRun(Root(t), t.s, Now(), from, posted, alloc.streamEnabled);
      }
    }
  }
}
