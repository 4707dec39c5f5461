/** Bytes, byte strings and the one way the program changes a disk image: overwriting a range. */
module Bytes {

  type byte = x: int | 0 <= x < 256

  /** uint64_t counts modulo this. */
  const WORD: nat := 0x1_0000_0000_0000_0000

  /** `s` with the bytes starting at `from` overwritten by `data`. */
  function Splice(s: seq<byte>, from: nat, data: seq<byte>): (r: seq<byte>)
    requires from + |data| <= |s|
    ensures |r| == |s|
    ensures forall i :: 0 <= i < |s| ==> r[i] == if from <= i < from + |data| then data[i - from] else s[i]
  {
    s[..from] + data + s[from + |data|..]
  }

  /** Overwriting with one string and then with the next is overwriting with both. */
  lemma SpliceThenSplice(s: seq<byte>, from: nat, a: seq<byte>, b: seq<byte>)
    requires from + |a| + |b| <= |s|
    ensures Splice(Splice(s, from, a), from + |a|, b) == Splice(s, from, a + b)
  {
  }

  lemma Regroup(a: seq<byte>, b: seq<byte>, c: seq<byte>)
    ensures (a + b) + c == a + (b + c)
  {
  }

  /** memcpy, and what read() does to its buffer. */
  method CopyIn(a: array<byte>, at: nat, data: seq<byte>)
    requires at + |data| <= a.Length
    modifies a
    ensures a[..] == Splice(old(a[..]), at, data)
  {
    for i := 0 to |data|
      invariant forall k :: 0 <= k < a.Length ==> a[k] == if at <= k < at + i then data[k - at] else old(a[k])
    {
      a[at + i] := data[i];
    }
  }

  /** The numbers in [lo, hi). */
  function Interval(lo: nat, hi: nat): (r: set<nat>)
    ensures forall b :: b in r <==> lo <= b < hi
    decreases hi - lo
  {
    if lo >= hi then {} else {lo} + Interval(lo + 1, hi)
  }

  function Min(a: nat, b: nat): nat {
    if a < b then a else b
  }
}
