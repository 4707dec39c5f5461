/**
 What write_not_zeroes (src/server/client.c:105-212) does to a file and its allocation map, block
 by block, whatever the map says; and the promise, "a clear bit means a block of zeroes", under
 which it is a plain copy.
 */
module SparseStores {
  import opened Bytes
  import opened Bitsets

  /** block_allocation_resolution */
  const BLOCK: nat := 4096

  /** A clear bit promises a block of zeroes. */
  ghost predicate SparseImage(marked: set<nat>, bytes: seq<byte>) {
    forall i :: 0 <= i < |bytes| && i / BLOCK !in marked ==> bytes[i] == 0
  }

  /** Every block touched by [at, at + n) is marked, or every one is not. */
  ghost predicate Blocks(marked: set<nat>, at: nat, n: nat, value: bool)
    requires 0 < n
  {
    forall k :: at / BLOCK <= k <= (at + n - 1) / BLOCK ==> (k in marked <==> value)
  }

  /** The part of [at, at + left) that lies in the block of `at`. */
  function BlockRun(at: nat, left: nat): (blockrun: nat)
    requires 0 < left
    ensures 0 < blockrun <= left && at / BLOCK == (at + blockrun - 1) / BLOCK
    ensures blockrun < left ==> (at + blockrun) % BLOCK == 0
  {
    if BLOCK - at % BLOCK > left then left else BLOCK - at % BLOCK
  }

  predicate AllZero(data: seq<byte>) {
    forall i :: 0 <= i < |data| ==> data[i] == 0
  }

  /** A file and the blocks its allocation map has marked. */
  datatype Store = Store(bytes: seq<byte>, marked: set<nat>)

  /** One block, or part of one: nothing is done if it is clear and the data are zeroes. */
  function StoreBlock(x: Store, at: nat, piece: seq<byte>): (y: Store)
    requires at + |piece| <= |x.bytes|
    ensures |y.bytes| == |x.bytes|
  {
    if at / BLOCK in x.marked || !AllZero(piece)
    then Store(Splice(x.bytes, at, piece), x.marked + {at / BLOCK})
    else x
  }

  /** A whole write, block by block. */
  function SparseStore(x: Store, from: nat, data: seq<byte>): (y: Store)
    requires from + |data| <= |x.bytes|
    ensures |y.bytes| == |x.bytes|
    decreases |data|
  {
    if data == [] then x
    else
      var n := BlockRun(from, |data|);
      SparseStore(StoreBlock(x, from, data[..n]), from + n, data[n..])
  }

  // ----- what it changes -----

  /** Bytes outside the range stay, bits are only set. */
  lemma {:induction false} StoreFrame(x: Store, from: nat, data: seq<byte>)
    requires from + |data| <= |x.bytes|
    ensures var y := SparseStore(x, from, data);
            && x.marked <= y.marked
            && forall i :: 0 <= i < |x.bytes| && !(from <= i < from + |data|) ==> y.bytes[i] == x.bytes[i]
    decreases |data|
  {
    if data != [] {
      var n := BlockRun(from, |data|);
      StoreFrame(StoreBlock(x, from, data[..n]), from + n, data[n..]);
    }
  }

  /** A byte in the range is stored, or it was to be zero in a clear block and is left as it was. */
  ghost predicate StoredOrLeft(x: Store, y: Store, i: nat, v: byte)
    requires i < |x.bytes| == |y.bytes|
  {
    y.bytes[i] == v || (v == 0 && y.bytes[i] == x.bytes[i] && i / BLOCK !in x.marked)
  }

  lemma BlockByte(x: Store, at: nat, piece: seq<byte>, i: nat)
    requires 0 < |piece| && at + |piece| <= |x.bytes| && at / BLOCK == (at + |piece| - 1) / BLOCK && at <= i < at + |piece|
    ensures StoredOrLeft(x, StoreBlock(x, at, piece), i, piece[i - at])
  {
    SameBlock(at, |piece|, i);
  }

  lemma {:induction false} StoreByte(x: Store, from: nat, data: seq<byte>, i: nat)
    requires from + |data| <= |x.bytes| && from <= i < from + |data|
    ensures StoredOrLeft(x, SparseStore(x, from, data), i, data[i - from])
    decreases |data|
  {
    var n := BlockRun(from, |data|);
    var a, b := data[..n], data[n..];
    var z := StoreBlock(x, from, a);
    if i < from + n {
      BlockByte(x, from, a, i);
      StoreFrame(z, from + n, b);
    } else {
      StoreByte(z, from + n, b, i);
      assert b[i - (from + n)] == data[i - from];
      assert z.bytes[i] == x.bytes[i] && x.marked <= z.marked;
    }
  }

  /** Zeroes leave clear blocks alone. */
  lemma {:induction false} ZeroesSkip(x: Store, from: nat, data: seq<byte>)
    requires from + |data| <= |x.bytes| && AllZero(data)
    ensures var y := SparseStore(x, from, data);
            && y.marked == x.marked
            && forall i :: 0 <= i < |x.bytes| && i / 4096 !in x.marked ==> y.bytes[i] == x.bytes[i]
    decreases |data|
  {
    if data != [] {
      var n := BlockRun(from, |data|);
      var z := StoreBlock(x, from, data[..n]);
      forall i | 0 <= i < |x.bytes| && i / BLOCK !in x.marked ensures z.bytes[i] == x.bytes[i] {
        SameBlock(from, n, i);
      }
      assert z.marked == x.marked;
      ZeroesSkip(z, from + n, data[n..]);
    }
  }

  lemma SameBlock(at: nat, n: nat, i: nat)
    requires 0 < n && at / BLOCK == (at + n - 1) / BLOCK
    ensures at <= i < at + n ==> i / BLOCK == at / BLOCK
  {
    if at <= i < at + n {
      DivMonotone(at, i, BLOCK);
      DivMonotone(i, at + n - 1, BLOCK);
    }
  }

  // ----- the promise -----

  lemma BlockIsPlain(x: Store, at: nat, piece: seq<byte>)
    requires SparseImage(x.marked, x.bytes) && 0 < |piece| && at + |piece| <= |x.bytes|
    requires at / BLOCK == (at + |piece| - 1) / BLOCK
    ensures Plainly(x, StoreBlock(x, at, piece), at, piece)
  {
    var y := StoreBlock(x, at, piece);
    forall i | 0 <= i < |x.bytes|
      ensures y.bytes[i] == Splice(x.bytes, at, piece)[i] && (i / BLOCK !in y.marked ==> y.bytes[i] == 0)
    {
      SameBlock(at, |piece|, i);
    }
  }

  /** From `x` to `y`, the data were copied and the promise holds. */
  ghost predicate Plainly(x: Store, y: Store, from: nat, data: seq<byte>) {
    from + |data| <= |x.bytes| && y.bytes == Splice(x.bytes, from, data) && SparseImage(y.marked, y.bytes)
  }

  lemma PlainlyOn(x: Store, y: Store, z: Store, from: nat, a: seq<byte>, b: seq<byte>, data: seq<byte>)
    requires Plainly(x, y, from, a) && Plainly(y, z, from + |a|, b) && data == a + b
    ensures Plainly(x, z, from, data)
  {
    SpliceThenSplice(x.bytes, from, a, b);
  }

  /** While the promise holds, storing sparsely is a plain copy, and the promise goes on holding. */
  lemma {:induction false} SparseIsPlain(x: Store, from: nat, data: seq<byte>)
    requires SparseImage(x.marked, x.bytes) && from + |data| <= |x.bytes|
    ensures Plainly(x, SparseStore(x, from, data), from, data)
    decreases |data|
  {
    if data == [] {
      assert Splice(x.bytes, from, data) == x.bytes;
    } else {
      var n := BlockRun(from, |data|);
      var a, b := data[..n], data[n..];
      var y := StoreBlock(x, from, a);
      BlockIsPlain(x, from, a);
      SparseIsPlain(y, from + n, b);
      PlainlyOn(x, y, SparseStore(y, from + n, b), from, a, b, data);
    }
  }

  /** Some write is not a plain copy exactly if the promise is broken. */
  lemma PromiseIff(x: Store)
    ensures SparseImage(x.marked, x.bytes) <==>
            forall from: nat, data: seq<byte> :: from + |data| <= |x.bytes| ==>
              SparseStore(x, from, data).bytes == Splice(x.bytes, from, data)
  {
    if SparseImage(x.marked, x.bytes) {
      forall from: nat, data: seq<byte> | from + |data| <= |x.bytes|
        ensures SparseStore(x, from, data).bytes == Splice(x.bytes, from, data)
      {
        SparseIsPlain(x, from, data);
      }
    } else {
      var i :| 0 <= i < |x.bytes| && i / BLOCK !in x.marked && x.bytes[i] != 0;
      ZeroesSkip(x, i, [0]);
      assert SparseStore(x, i, [0]).bytes[i] != Splice(x.bytes, i, [0])[i];
    }
  }

  // ----- in pieces -----

  /** Cut at a block boundary, a write is two writes. */
  lemma {:induction false} SparseSplit(x: Store, from: nat, a: seq<byte>, b: seq<byte>, ab: seq<byte>, mid: nat)
    requires from + |ab| <= |x.bytes| && ab == a + b && mid == from + |a| && (a == [] || mid % BLOCK == 0)
    ensures Halves(x, from, a, b, ab, mid)
    decreases |a|
  {
    if a == [] {
      assert ab == b;
    } else {
      var n := BlockRun(from, |a|);
      SameCut(from, |a|, |ab|);
      var first, rest := a[..n], a[n..];
      var restB := rest + b;
      Regrouped(a, n, b, ab, restB);
      SparseSplit(StoreBlock(x, from, first), from + n, rest, b, restB, mid);
      HalvesOn(x, from, n, first, rest, b, a, ab, restB, mid);
    }
  }

  lemma Regrouped(a: seq<byte>, n: nat, b: seq<byte>, ab: seq<byte>, restB: seq<byte>)
    requires n <= |a| && ab == a + b && restB == a[n..] + b
    ensures a == a[..n] + a[n..] && ab == a[..n] + restB && |restB| + n == |ab|
  {
  }

  ghost predicate Halves(x: Store, from: nat, a: seq<byte>, b: seq<byte>, ab: seq<byte>, mid: nat) {
    && from + |ab| <= |x.bytes| && |ab| == |a| + |b| && mid == from + |a|
    && SparseStore(x, from, ab) == SparseStore(SparseStore(x, from, a), mid, b)
  }

  lemma HalvesOn(x: Store, from: nat, n: nat, first: seq<byte>, rest: seq<byte>, b: seq<byte>, a: seq<byte>,
                 ab: seq<byte>, restB: seq<byte>, mid: nat)
    requires |first| == n > 0 && from + |ab| <= |x.bytes| && a == first + rest && ab == first + restB && restB == rest + b
    requires n == BlockRun(from, |a|) == BlockRun(from, |ab|) && mid == from + |a|
    requires Halves(StoreBlock(x, from, first), from + n, rest, b, restB, mid)
    ensures Halves(x, from, a, b, ab, mid)
  {
    FirstStep(x, from, a, n, first, rest);
    FirstStep(x, from, ab, n, first, restB);
  }

  lemma FirstStep(x: Store, from: nat, data: seq<byte>, n: nat, first: seq<byte>, rest: seq<byte>)
    requires from + |data| <= |x.bytes| && data != [] && n == BlockRun(from, |data|) && |first| == n && data == first + rest
    ensures SparseStore(x, from, data) == SparseStore(StoreBlock(x, from, first), from + n, rest)
  {
    assert data[..n] == first && data[n..] == rest;
  }

  lemma SameCut(from: nat, a: nat, ab: nat)
    requires 0 < a <= ab && (from + a) % BLOCK == 0
    ensures BlockRun(from, a) == BlockRun(from, ab)
  {
  }

  /** A run of marked blocks is copied. */
  lemma {:induction false} AllMarked(x: Store, from: nat, data: seq<byte>)
    requires from + |data| <= |x.bytes| && (data != [] ==> Blocks(x.marked, from, |data|, true))
    ensures Copied(x, SparseStore(x, from, data), from, data)
    decreases |data|
  {
    if data == [] {
      assert Splice(x.bytes, from, data) == x.bytes;
    } else {
      var n := BlockRun(from, |data|);
      var a, b := data[..n], data[n..];
      var z := StoreBlock(x, from, a);
      MarkedBlock(x, from, a, |data|);
      LaterMarked(x.marked, from, n, |data|);
      AllMarked(z, from + n, b);
      CopiedOn(x, z, SparseStore(z, from + n, b), from, a, b, data);
    }
  }

  /** From `x` to `y` the data were copied, and the map is the same. */
  ghost predicate Copied(x: Store, y: Store, from: nat, data: seq<byte>) {
    from + |data| <= |x.bytes| && y.bytes == Splice(x.bytes, from, data) && y.marked == x.marked
  }

  lemma CopiedOn(x: Store, y: Store, z: Store, from: nat, a: seq<byte>, b: seq<byte>, data: seq<byte>)
    requires Copied(x, y, from, a) && Copied(y, z, from + |a|, b) && data == a + b
    ensures Copied(x, z, from, data)
  {
    SpliceThenSplice(x.bytes, from, a, b);
  }

  lemma MarkedBlock(x: Store, from: nat, piece: seq<byte>, run: nat)
    requires 0 < run && Blocks(x.marked, from, run, true) && from + |piece| <= |x.bytes|
    ensures Copied(x, StoreBlock(x, from, piece), from, piece)
  {
    DivMonotone(from, from + run - 1, BLOCK);
    assert x.marked + {from / BLOCK} == x.marked;
  }

  lemma ByteOfRun(marked: set<nat>, at: nat, run: nat, i: nat)
    requires 0 < run && Blocks(marked, at, run, true) && at <= i < at + run
    ensures i / BLOCK in marked
  {
    DivMonotone(at, i, BLOCK);
    DivMonotone(i, at + run - 1, BLOCK);
  }

  lemma LaterMarked(marked: set<nat>, at: nat, n: nat, run: nat)
    requires 0 < n <= run && Blocks(marked, at, run, true)
    ensures n < run ==> Blocks(marked, at + n, run - n, true)
  {
    DivMonotone(at, at + n, BLOCK);
  }

  /** A write within one block. */
  lemma OneBlock(x: Store, at: nat, piece: seq<byte>)
    requires 0 < |piece| && at + |piece| <= |x.bytes| && at / BLOCK == (at + |piece| - 1) / BLOCK
    ensures SparseStore(x, at, piece) == StoreBlock(x, at, piece)
  {
    WithinBlock(at, |piece|);
    assert piece[..|piece|] == piece;
    assert piece[|piece|..] == [];
  }

  lemma WithinBlock(at: nat, n: nat)
    requires 0 < n && at / BLOCK == (at + n - 1) / BLOCK
    ensures BlockRun(at, n) == n
  {
  }
}
