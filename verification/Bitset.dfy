/**
 The allocation map (`struct bitset`, src/server/bitset.h:187-195): one bit per block of
 `resolution` bytes of a file of `size` bytes, plus the stream of changes made to it.
 */
module Bitsets {
  import opened Bytes
  import opened BitField
  import opened EventStream

  class Bitset {
    const size: nat
    const resolution: nat
    const bits: array<bv64>
    const stream: Stream
    var streamEnabled: bool

    /** The plain set of block numbers that the words stand for. */
    ghost var marked: set<nat>

    ghost predicate Valid()
      reads this, bits, stream, stream.entries
    {
      && 0 < resolution
      && (size > 0 ==> (size - 1) / resolution < 64 * bits.Length)
      && stream.Valid()
      && bits as object != stream.entries
      && Represents(bits[..], marked)
    }

    /** bitset_is_set_at */
    ghost predicate IsSet(at: nat)
      requires 0 < resolution
      reads this
    {
      at / resolution in marked
    }

    lemma BlockInField(at: nat)
      requires Valid() && at < size
      ensures at / resolution < 64 * bits.Length
    {
      DivMonotone(at, size - 1, resolution);
    }

    constructor (size: nat, resolution: nat, bits: array<bv64>, stream: Stream)
      requires 0 < resolution && (size > 0 ==> (size - 1) / resolution < 64 * bits.Length)
      requires Represents(bits[..], {}) && stream.Valid() && bits as object != stream.entries
      ensures Valid() && this.size == size && this.resolution == resolution
      ensures this.bits == bits && this.stream == stream
      ensures marked == {} && !streamEnabled
    {
      this.size, this.resolution, this.bits, this.stream := size, resolution, bits, stream;
      streamEnabled := false;
      marked := {};
    }

    method IsSetAt(at: nat) returns (r: bool)
      requires Valid() && at < size
      ensures r == IsSet(at)
    {
      BlockInField(at);
      r := BitGet(bits, at / resolution);
    }

    /**
     bitset_set_range: the bits first, then, under the same lock, the event.  An empty range past
     the start of the file is taken as the arithmetic takes it: it marks the block it points
     into, if it points inside one.
     */
    method SetRange(from: nat, len: nat)
      requires Valid() && 0 < from + len && (from + len - 1) / resolution < 64 * bits.Length
      modifies this`marked, bits, stream, stream.entries
      ensures Valid() && stream.entries == old(stream.entries)
      ensures marked == old(marked) + Interval(from / resolution, (from + len - 1) / resolution + 1)
      ensures stream.log == if streamEnabled then old(stream.log) + [Entry(Set, from, len)] else old(stream.log)
    {
      var first, last := from / resolution, (from + len - 1) / resolution;
      FirstBeforeLast(from, len, resolution);
      ghost var before := bits[..];
      FillRange(bits, first, last - first + 1, true);
      marked := marked + Interval(first, last + 1);
      MarkedMore(before, bits[..], old(marked), first, last + 1);
      if streamEnabled {
        stream.Enqueue(Set, from, len);
      }
    }

    /** bitset_enable_stream */
    method EnableStream()
      requires Valid()
      modifies this, stream, stream.entries
      ensures Valid() && streamEnabled && stream.entries == old(stream.entries)
      ensures stream.log == old(stream.log) + [Entry(On, 0, size)]
    {
      streamEnabled := true;
      stream.Enqueue(On, 0, size);
    }

    /** bitset_disable_stream */
    method DisableStream()
      requires Valid()
      modifies this, stream, stream.entries
      ensures Valid() && !streamEnabled && stream.entries == old(stream.entries)
      ensures stream.log == old(stream.log) + [Entry(Off, 0, size)]
    {
      stream.Enqueue(Off, 0, size);
      streamEnabled := false;
    }

    /**
     bitset_run_count_ex: how many bytes from `from` on lie in blocks with the same bit.  The
     last block is counted in full, so the result may exceed `len`; clipped to the part of
     `len` inside the file it is exactly the length of the run.
     */
    method RunCountEx(from: nat, len: nat) returns (run: nat, runIsSet: bool)
      requires Valid() && (from > size || (from < size && 0 < len))
      ensures from > size ==> run == 0
      ensures from < size ==>
                var clipped := if from + len > size then size - from else len;
                && run >= 1
                && runIsSet == IsSet(from)
                && (forall i :: from <= i < from + run && i < from + clipped ==> IsSet(i) == IsSet(from))
                && (run < clipped ==> IsSet(from + run) != IsSet(from))
    {
      if from > size {
        return 0, false;
      }
      var clipped := if from + len > size then size - from else len;
      var first, last := from / resolution, (from + clipped - 1) / resolution;
      var bitlen := last - first + 1;
      DivMonotone(from, from + clipped - 1, resolution);
      BlockInField(from + clipped - 1);
      BlockInField(from);
      var count;
      count, runIsSet := RunCount(bits, first, bitlen);
      assert Bit(bits[..], first) == runIsSet;
      RunBytes(from, first, count, resolution);
      run := RunLength(from, count, resolution);
      RunIsExact(from, clipped, first, bitlen, count, runIsSet);
    }

    /** Every byte of a run of `count` like blocks has their bit. */
    lemma RunInside(from: nat, first: nat, count: nat, value: bool, i: nat)
      requires Valid() && first == from / resolution && 0 < count && first + count <= 64 * bits.Length
      requires Uniform(bits[..], first, first + count, value)
      requires from <= i < from + (count * resolution - from % resolution)
      ensures IsSet(i) == value
    {
      BlockWithin(from, first, count, resolution, i);
      assert Bit(bits[..], i / resolution) == value;
    }

    /** The byte after it lies in the next block. */
    lemma RunStops(from: nat, first: nat, count: nat, value: bool)
      requires Valid() && first == from / resolution && 0 < count && first + count < 64 * bits.Length
      requires Bit(bits[..], first + count) != value
      ensures from % resolution < count * resolution && IsSet(from + (count * resolution - from % resolution)) != value
    {
      RunBytes(from, first, count, resolution);
      BlockAfter(from, first, count, resolution);
    }

    /** The byte-level meaning of a run of `count` blocks out of `bitlen`. */
    lemma RunIsExact(from: nat, clipped: nat, first: nat, bitlen: nat, count: nat, value: bool)
      requires Valid() && 0 < clipped && first == from / resolution && 0 < count
      requires first + bitlen == (from + clipped - 1) / resolution + 1 && first + bitlen <= 64 * bits.Length
      requires LongestRun(bits[..], first, bitlen, value, count)
      ensures from % resolution < count * resolution
      ensures var run := RunLength(from, count, resolution);
              && (forall i :: from <= i < from + run && i < from + clipped ==> IsSet(i) == value)
              && (run < clipped ==> IsSet(from + run) != value)
    {
      RunBytes(from, first, count, resolution);
      var run := count * resolution - from % resolution;
      forall i | from <= i < from + run && i < from + clipped ensures IsSet(i) == value {
        RunInside(from, first, count, value, i);
      }
      if run < clipped {
        PastRun(from, first, count, resolution, from + clipped - 1);
        RunStops(from, first, count, value);
      }
    }
  }

  /** The bytes from `from` to the end of a run of `count` blocks that begins with its own. */
  function RunLength(from: nat, count: nat, res: nat): (run: nat)
    requires 0 < res && from % res < count * res
    ensures 0 < run
  {
    count * res - from % res
  }

  // ----- INT_FIRST_AND_LAST -----

  /** `bitlen` of INT_FIRST_AND_LAST, in 64-bit arithmetic. */
  function BlockSpan(from: nat, len: nat, res: nat): nat
    requires 0 < res
  {
    ((from + len - 1) % WORD / res - from / res + 1) % WORD
  }

  lemma FirstBeforeLast(from: nat, len: nat, res: nat)
    requires 0 < res && 0 < from + len
    ensures from / res <= (from + len - 1) / res + 1
  {
    if len > 0 {
      DivMonotone(from, from + len - 1, res);
    } else {
      BackOne(from, res);
    }
  }

  /** Stepping back one byte leaves the block exactly when it was entered there. */
  lemma BackOne(from: nat, res: nat)
    requires 0 < res && 0 < from
    ensures (from - 1) / res == if from % res == 0 then from / res - 1 else from / res
  {
    var q, r := from / res, from % res;
    assert from == res * q + r;
    if r == 0 {
      assert (q - 1) * res == q * res - res;
      DivUnique(from - 1, res, q - 1, res - 1);
    } else {
      DivUnique(from - 1, res, q, r - 1);
    }
  }

  lemma DivUnique(n: nat, res: nat, q: nat, r: nat)
    requires n == q * res + r && r < res
    ensures n / res == q
  {
    var k := n / res;
    assert n == res * k + n % res;
    if k < q {
      MulMonotone(k + 1, q, res);
    } else if k > q {
      MulMonotone(q + 1, k, res);
    }
  }

  lemma SmallMod(n: nat)
    requires n < WORD
    ensures n % WORD == n
  {
  }

  /** For a range that is not empty the span is the number of blocks it touches. */
  lemma SpanOfBlocks(from: nat, len: nat, res: nat)
    requires 0 < res && 0 < len && from + len < WORD
    ensures BlockSpan(from, len, res) == (from + len - 1) / res - from / res + 1
  {
    DivMonotone(from, from + len - 1, res);
    DivShrinks(from + len - 1, res);
    SmallMod(from + len - 1);
    SmallMod((from + len - 1) / res - from / res + 1);
  }

  lemma DivShrinks(n: nat, res: nat)
    requires 0 < res
    ensures n / res <= n
  {
    assert n == res * (n / res) + n % res;
    MulMonotone(1, res, n / res);
  }

  /**
   For an empty range, which touches no block, the span is 0 exactly at a block boundary past
   the start of the file; inside a block it is 1, and at the start of the file it is all of the
   64-bit address space.
   */
  lemma SpanOfNothing(from: nat, res: nat)
    requires 1 < res && from < WORD
    ensures BlockSpan(from, 0, res) == 0 <==> 0 < from && from % res == 0
    ensures from % res != 0 ==> BlockSpan(from, 0, res) == 1
    ensures BlockSpan(0, 0, res) == (WORD - 1) / res + 1
  {
    assert 0 / res == 0 by { DivUnique(0, res, 0, 0); }
    assert (0 - 1) % WORD == WORD - 1;
    assert (WORD - 1) / res < WORD - 1 by {
      var q := (WORD - 1) / res;
      assert WORD - 1 == res * q + (WORD - 1) % res;
      MulMonotone(2, res, q);
    }
    assert BlockSpan(0, 0, res) == (WORD - 1) / res + 1;
    if from > 0 {
      BackOne(from, res);
      assert (from - 1) % WORD == from - 1;
      assert from + 0 - 1 == from - 1;
    } else {
      assert from % res == 0 by { assert 0 == res * 0 + 0; }
    }
  }

  /** The words and the set agree, block by block. */
  ghost predicate Represents(words: seq<bv64>, marked: set<nat>) {
    && (forall i :: i in marked ==> i < 64 * |words|)
    && (forall i {:trigger Bit(words, i)} :: 0 <= i < 64 * |words| ==> (i in marked <==> Bit(words, i)))
  }

  lemma MarkedMore(before: seq<bv64>, after: seq<bv64>, marked: set<nat>, lo: nat, hi: nat)
    requires Represents(before, marked) && Filled(before, after, lo, hi, true) && hi <= 64 * |before|
    ensures Represents(after, marked + Interval(lo, hi))
  {
    forall i {:trigger Bit(after, i)} | 0 <= i < 64 * |after|
      ensures i in marked + Interval(lo, hi) <==> Bit(after, i)
    {
      assert Bit(before, i) <==> i in marked;
    }
  }

  method AllocField(size: nat, resolution: nat) returns (b: array<bv64>)
    requires 0 < resolution
    ensures fresh(b) && (size > 0 ==> (size - 1) / resolution < 64 * b.Length)
    ensures Represents(b[..], {})
  {
    b := new bv64[WordsFor(size, resolution)](_ => 0);
    AllClear(b[..]);
  }

  /** bitset_alloc: no block marked, stream empty and off. */
  method Alloc(size: nat, resolution: nat) returns (b: Bitset)
    requires 0 < resolution
    ensures b.Valid() && fresh(b) && fresh(b.bits) && fresh(b.stream) && fresh(b.stream.entries)
    ensures b.size == size && b.resolution == resolution && b.marked == {} && !b.streamEnabled
    ensures b.stream.Contents() == []
  {
    var bits := AllocField(size, resolution);
    var stream := new Stream();
    b := new Bitset(size, resolution, bits, stream);
  }

  lemma AllClear(words: seq<bv64>)
    requires forall k :: 0 <= k < |words| ==> words[k] == 0
    ensures forall i :: 0 <= i < 64 * |words| ==> !Bit(words, i)
  {
    forall i | 0 <= i < 64 * |words| ensures !Bit(words, i) {
      UniformWord(false, Shift(i % 64));
    }
  }

  // ----- block arithmetic -----

  lemma DivBound(at: nat, res: nat, blocks: nat)
    requires 0 < res && at < res * blocks
    ensures at / res < blocks
  {
    if at / res >= blocks {
      MulMonotone(blocks, at / res, res);
    }
  }

  lemma MulMonotone(a: nat, b: nat, res: nat)
    requires a <= b
    ensures res * a <= res * b
  {
  }

  lemma DivMonotone(a: nat, b: nat, res: nat)
    requires 0 < res && a <= b
    ensures a / res <= b / res
  {
    if a / res > b / res {
      MulMonotone(b / res + 1, a / res, res);
    }
  }

  /** Whole words enough for one bit per block. */
  function WordsFor(size: nat, res: nat): (words: nat)
    requires 0 < res
    ensures size > 0 ==> (size - 1) / res < 64 * words
  {
    DivStep(size, res);
    ((size + res - 1) / res + 63) / 64
  }

  lemma DivStep(size: nat, res: nat)
    requires 0 < res
    ensures size > 0 ==> (size - 1) / res < (size + res - 1) / res
  {
    if size > 0 {
      var q := (size - 1) / res;
      assert size - 1 == res * q + (size - 1) % res;
      assert res * (q + 1) == res * q + res;
      MulDiv(q + 1, res);
      assert (q + 1) * res == res * (q + 1);
      DivMonotone(res * (q + 1), size + res - 1, res);
    }
  }

  /** The run of `count` blocks starting in the block of `from` ends past `from`. */
  lemma RunBytes(from: nat, first: nat, count: nat, res: nat)
    requires 0 < res && first == from / res && 0 < count
    ensures from % res < count * res
    ensures from + (count * res - from % res) == (first + count) * res
  {
    assert from == res * first + from % res;
    MulMonotone(1, count, res);
    assert (first + count) * res == first * res + count * res;
  }

  lemma BlockWithin(from: nat, first: nat, count: nat, res: nat, i: nat)
    requires 0 < res && first == from / res && 0 < count
    requires from <= i < from + (count * res - from % res) || (from <= i && i / res < first + count)
    ensures first <= i / res < first + count
  {
    DivMonotone(from, i, res);
    if i < from + (count * res - from % res) {
      RunBytes(from, first, count, res);
      assert (first + count) * res == res * (first + count);
      DivBound(i, res, first + count);
    }
  }

  lemma BlockAfter(from: nat, first: nat, count: nat, res: nat)
    requires 0 < res && first == from / res && 0 < count
    ensures (from + (count * res - from % res)) / res == first + count
  {
    RunBytes(from, first, count, res);
    MulDiv(first + count, res);
  }

  lemma MulDiv(n: nat, res: nat)
    requires 0 < res
    ensures (n * res) / res == n
  {
    var q, r := (n * res) / res, (n * res) % res;
    assert n * res == res * q + r;
    if q < n {
      MulMonotone(q + 1, n, res);
    } else if q > n {
      MulMonotone(n + 1, q, res);
    }
  }

  /** A byte at or past the end of the run lies in a later block. */
  lemma PastRun(from: nat, first: nat, count: nat, res: nat, i: nat)
    requires 0 < res && first == from / res && 0 < count
    requires from + (count * res - from % res) <= i
    ensures first + count <= i / res
  {
    BlockAfter(from, first, count, res);
    DivMonotone(from + (count * res - from % res), i, res);
  }
}
