/**
 The raw bit field of src/server/bitset.h: an array of 64-bit words, bit `i` living in
 word `i / 64` at shift `i & 63`.  Every operation is specified by what it does to the
 individual bits; the code itself works on whole words, whole bytes and shifted masks.
 */
module BitField {

  /** `idx & (BITS_PER_WORD - 1)` for an index below 64, as a shift amount. */
  function Shift(j: nat): bv6 {
    if j == 0 then 0 else Shift(j - 1) + 1
  }

  predicate WordBit(w: bv64, shift: bv6) {
    (w >> shift) & 1 == 1
  }

  /** bit_get: the value of bit `i`. */
  predicate Bit(b: seq<bv64>, i: nat)
    requires i < 64 * |b|
  {
    WordBit(b[i / 64], Shift(i % 64))
  }

  function ALL_ONES(): bv64 { 0xffff_ffff_ffff_ffff }

  /** `after` is `before` with exactly the bits in [from, to) forced to `value`. */
  ghost predicate Filled(before: seq<bv64>, after: seq<bv64>, from: nat, to: nat, value: bool) {
    && |after| == |before|
    && forall i :: 0 <= i < 64 * |before| ==> Bit(after, i) == if from <= i < to then value else Bit(before, i)
  }

  // ----- facts about one word -----

  lemma {:induction false} ShiftValue(j: nat)
    requires j < 64
    ensures Shift(j) as int == j
  {
    if j != 0 {
      ShiftValue(j - 1);
      BumpShift(Shift(j - 1));
    }
  }

  lemma BumpShift(s: bv6)
    requires s as int < 63
    ensures (s + 1) as int == s as int + 1
  {
  }

  lemma OrBit(w: bv64, k: bv6, j: bv6)
    ensures WordBit(w | (1 << k), j) == (j == k || WordBit(w, j))
  {
  }

  lemma AndNotBit(w: bv64, k: bv6, j: bv6)
    ensures WordBit(w & !(1 << k), j) == (j != k && WordBit(w, j))
  {
  }

  lemma UniformWord(value: bool, j: bv6)
    ensures WordBit(if value then ALL_ONES() else 0, j) == value
  {
  }

  // ----- single bits of the field -----

  /** bit_set and bit_clear. */
  function WithBit(b: seq<bv64>, idx: nat, value: bool): (r: seq<bv64>)
    requires idx < 64 * |b|
    ensures Filled(b, r, idx, idx + 1, value)
  {
    var w, k := b[idx / 64], Shift(idx % 64);
    var r := b[idx / 64 := if value then w | (1 << k) else w & !(1 << k)];
    assert Filled(b, r, idx, idx + 1, value) by {
      forall i | 0 <= i < 64 * |b|
        ensures Bit(r, i) == if i == idx then value else Bit(b, i)
      {
        if i / 64 == idx / 64 {
          var j := Shift(i % 64);
          ShiftValue(i % 64); ShiftValue(idx % 64);
          OrBit(w, k, j); AndNotBit(w, k, j);
        }
      }
    }
    r
  }

  /** Two adjacent or overlapping fills of the same value make one fill. */
  lemma FillThenFill(s0: seq<bv64>, s1: seq<bv64>, s2: seq<bv64>, a: nat, b: nat, c: nat, d: nat, value: bool)
    requires Filled(s0, s1, a, b, value) && Filled(s1, s2, c, d, value)
    requires a <= c <= b
    ensures Filled(s0, s2, a, if b <= d then d else b, value)
  {
    forall i | 0 <= i < 64 * |s0|
      ensures Bit(s2, i) == if a <= i < (if b <= d then d else b) then value else Bit(s0, i)
    {
      assert Bit(s1, i) == if a <= i < b then value else Bit(s0, i);
    }
  }

  /** One bit_set or bit_clear inside a range fill that has so far covered [from, done). */
  method SetOne(b: array<bv64>, ghost before: seq<bv64>, ghost from: nat, idx: nat, ghost done: nat, value: bool)
    requires idx < 64 * b.Length && from <= idx <= done
    requires Filled(before, b[..], from, done, value)
    modifies b
    ensures Filled(before, b[..], from, if done <= idx then idx + 1 else done, value)
  {
    ghost var s := b[..];
    var r := WithBit(b[..], idx, value);
    b[idx / 64] := r[idx / 64];
    assert b[..] == r;
    FillThenFill(before, s, r, from, done, idx, idx + 1, value);
  }

  /** memset over the little-endian field: byte `n` of memory holds the bits [8 * n, 8 * n + 8). */
  method Memset(b: array<bv64>, word: nat, count: nat, value: bool)
    requires 8 * word + count <= 8 * b.Length
    modifies b
    ensures Filled(old(b[..]), b[..], 64 * word, 64 * word + 8 * count, value)
  {
    ghost var before := b[..];
    for n := 8 * word to 8 * word + count
      invariant Filled(before, b[..], 64 * word, 8 * n, value)
    {
      for k := 0 to 8
        invariant Filled(before, b[..], 64 * word, 8 * n + k, value)
      {
        SetOne(b, before, 64 * word, 8 * n + k, 8 * n + k, value);
      }
    }
  }

  /** The first loop of bit_set_range: bit by bit to a word boundary. */
  method FillToBoundary(b: array<bv64>, from: nat, len: nat, value: bool) returns (done: nat)
    requires from + len <= 64 * b.Length
    modifies b
    ensures from <= done <= from + len && (done == from + len || done % 64 == 0)
    ensures Filled(old(b[..]), b[..], from, done, value)
  {
    done := from;
    ghost var before := b[..];
    while done % 64 != 0 && done < from + len
      decreases from + len - done
      invariant from <= done <= from + len && Filled(before, b[..], from, done, value)
    {
      SetOne(b, before, from, done, done, value);
      done := done + 1;
    }
  }

  /** The last loop: every bit of [at, at + left), of which the memset may have covered some already. */
  method FillRest(b: array<bv64>, ghost before: seq<bv64>, ghost from: nat, at: nat, left: nat, ghost reached: nat, value: bool)
    requires at + left <= 64 * b.Length && from <= at <= reached <= at + left
    requires Filled(before, b[..], from, reached, value)
    modifies b
    ensures Filled(before, b[..], from, at + left, value)
  {
    ghost var done := reached;
    for i := at to at + left
      invariant i <= done <= at + left && Filled(before, b[..], from, done, value)
    {
      SetOne(b, before, from, i, done, value);
      done := if done <= i then i + 1 else done;
    }
  }

  /** A memset of `left / 8` bytes reaches at least to the last word boundary, and not past the end. */
  lemma WholeBytes(at: nat, left: nat, words: nat)
    requires at % 64 == 0 && at + left <= 64 * words
    ensures 64 * (at / 64) == at && 8 * (at / 64) + left / 8 <= 8 * words
    ensures left - left % 64 <= 8 * (left / 8) <= left && left % 64 <= left
  {
  }

  /**
   bit_set_range and bit_clear_range: bit by bit to a word boundary, then a memset of
   `len / 8` bytes (which may reach into the last, partial word), then bit by bit over the
   whole of that partial word.
   */
  method FillRange(b: array<bv64>, from: nat, len: nat, value: bool)
    requires from + len <= 64 * b.Length
    modifies b
    ensures Filled(old(b[..]), b[..], from, from + len, value)
  {
    ghost var before := b[..];
    var at := FillToBoundary(b, from, len, value);
    var left := from + len - at;
    ghost var reached := at;
    if left >= 64 {
      ghost var s := b[..];
      WholeBytes(at, left, b.Length);
      Memset(b, at / 64, left / 8, value);
      reached := at + 8 * (left / 8);
      FillThenFill(before, s, b[..], from, at, at, reached, value);
      at := at + left;
      left := left % 64;
      at := at - left;
    }
    FillRest(b, before, from, at, left, reached, value);
  }

  // ----- runs -----

  ghost predicate Uniform(b: seq<bv64>, lo: nat, hi: nat, value: bool)
    requires hi <= 64 * |b|
  {
    forall i :: lo <= i < hi ==> Bit(b, i) == value
  }

  /** `count` is the length of the longest prefix of [from, from + len) whose bits all equal `value`. */
  ghost predicate LongestRun(b: seq<bv64>, from: nat, len: nat, value: bool, count: nat)
    requires from + len <= 64 * |b|
  {
    && count <= len
    && Uniform(b, from, from + count, value)
    && (count < len ==> Bit(b, from + count) != value)
  }

  method BitGet(b: array<bv64>, idx: nat) returns (value: bool)
    requires idx < 64 * b.Length
    ensures value == Bit(b[..], idx)
  {
    value := WordBit(b[idx / 64], Shift(idx % 64));
  }

  /** A word equal to the match pattern has all its 64 bits at the run's value. */
  method WordIs(b: array<bv64>, at: nat, value: bool) returns (same: bool)
    requires at % 64 == 0 && at + 64 <= 64 * b.Length
    ensures same ==> Uniform(b[..], at, at + 64, value)
  {
    var wordMatch: bv64 := if value then ALL_ONES() else 0;
    same := b[at / 64] == wordMatch;
    if same {
      forall i | at <= i < at + 64 ensures Bit(b[..], i) == value {
        UniformWord(value, Shift(i % 64));
      }
    }
  }

  /** The first loop of bit_run_count: bit by bit to a word boundary. */
  method RunToBoundary(b: array<bv64>, from: nat, len: nat, value: bool) returns (count: nat, stop: bool)
    requires from + len <= 64 * b.Length
    ensures count <= len && Uniform(b[..], from, from + count, value)
    ensures if stop then count < len && Bit(b[..], from + count) != value
            else count == len || (from + count) % 64 == 0
  {
    count, stop := 0, false;
    var left := len;
    while (from + count) % 64 != 0 && left > 0
      decreases left
      invariant count + left == len && Uniform(b[..], from, from + count, value)
    {
      var bit := BitGet(b, from + count);
      if bit == value {
        count := count + 1;
      } else {
        return count, true;
      }
      left := left - 1;
    }
  }

  /** The second loop: whole words while they match. */
  method RunOfWords(b: array<bv64>, from: nat, len: nat, value: bool) returns (count: nat)
    requires from + len <= 64 * b.Length && (len > 0 ==> from % 64 == 0)
    ensures count <= len && Uniform(b[..], from, from + count, value)
  {
    count := 0;
    var left := len;
    while left >= 64
      invariant count + left == len && count % 64 == 0 && Uniform(b[..], from, from + count, value)
    {
      var same := WordIs(b, from + count, value);
      if same {
        count := count + 64;
      } else {
        break;
      }
      left := left - 64;
    }
  }

  /** The last loop: it never breaks, but once it meets a mismatch it re-tests that same bit. */
  method RunOfBits(b: array<bv64>, from: nat, len: nat, value: bool) returns (count: nat)
    requires from + len <= 64 * b.Length
    ensures LongestRun(b[..], from, len, value, count)
  {
    count := 0;
    var left := len;
    while left > 0
      invariant 0 <= left && count + left <= len && Uniform(b[..], from, from + count, value)
      invariant count + left < len ==> Bit(b[..], from + count) != value
    {
      var bit := BitGet(b, from + count);
      if bit == value {
        count := count + 1;
      }
      left := left - 1;
    }
  }

  /** bit_run_count */
  method RunCount(b: array<bv64>, from: nat, len: nat) returns (count: nat, runIsSet: bool)
    requires from < 64 * b.Length && from + len <= 64 * b.Length
    ensures runIsSet == Bit(b[..], from)
    ensures LongestRun(b[..], from, len, runIsSet, count)
  {
    runIsSet := BitGet(b, from);
    var stop;
    count, stop := RunToBoundary(b, from, len, runIsSet);
    if !stop {
      var more := RunOfWords(b, from + count, len - count, runIsSet);
      count := count + more;
      more := RunOfBits(b, from + count, len - count, runIsSet);
      count := count + more;
    }
  }
}
