/**
 Access control lists (src/server/acl.c): an address is tested byte by byte, with a table of
 masks for the last few bits.
 */
module Acl {

  datatype Family = Inet | Inet6 | Unix

  /** A socket address: its family and the bytes of its IP address, first byte first. */
  datatype Address = Address(family: Family, bytes: seq<bv8>)

  /** `struct ip_and_mask` */
  datatype Entry = Entry(ip: Address, mask: nat)

  datatype AccessList = AccessList(entries: seq<Entry>, defaultDeny: bool)

  predicate IsAddress(a: Address) {
    && (a.family.Inet? ==> |a.bytes| == 4)
    && (a.family.Inet6? ==> |a.bytes| == 16)
  }

  /** What parse_acl lets through: an IP address with a mask that fits it. */
  predicate IsEntry(e: Entry) {
    IsAddress(e.ip) && !e.ip.family.Unix? && e.mask <= 8 * |e.ip.bytes|
  }

  predicate IsList(entries: seq<Entry>) {
    forall i :: 0 <= i < |entries| ==> IsEntry(entries[i])
  }

  // ----- the bits of an address -----

  /** Bit `j` of a byte, most significant first. */
  predicate BitOf(b: bv8, j: nat)
    requires j < 8
  {
    match j
    case 0 => b & 0x80 != 0 case 1 => b & 0x40 != 0 case 2 => b & 0x20 != 0 case 3 => b & 0x10 != 0
    case 4 => b & 0x08 != 0 case 5 => b & 0x04 != 0 case 6 => b & 0x02 != 0 case 7 => b & 0x01 != 0
  }

  /** Bit `k` of an address. */
  predicate AddressBit(bytes: seq<bv8>, k: nat)
    requires k < 8 * |bytes|
  {
    BitOf(bytes[k / 8], k % 8)
  }

  /** The first `n` bits of both are the same. */
  predicate Agree(a: seq<bv8>, b: seq<bv8>, n: nat)
    requires n <= 8 * |a| && n <= 8 * |b|
  {
    forall k :: 0 <= k < n ==> AddressBit(a, k) == AddressBit(b, k)
  }

  /** The entry covers the address. */
  predicate Covers(e: Entry, a: Address)
    requires IsEntry(e) && IsAddress(a)
  {
    a.family == e.ip.family && Agree(a.bytes, e.ip.bytes, e.mask)
  }

  predicate SameBit(x: bv8, y: bv8, j: nat)
    requires j < 8
  {
    BitOf(x, j) == BitOf(y, j)
  }

  predicate ByteAgrees(x: bv8, y: bv8, n: nat)
    requires n <= 8
  {
    forall j :: 0 <= j < n ==> SameBit(x, y, j)
  }

  /** Two bytes compared under the mask that `testmasks` holds for `n` bits. */
  predicate SameUnder(x: bv8, y: bv8, n: nat)
    requires n <= 8
  {
    match n
    case 0 => x & 0 == y & 0
    case 1 => x & 128 == y & 128 case 2 => x & 192 == y & 192
    case 3 => x & 224 == y & 224 case 4 => x & 240 == y & 240
    case 5 => x & 248 == y & 248 case 6 => x & 252 == y & 252
    case 7 => x & 254 == y & 254 case 8 => x & 255 == y & 255
  }

  lemma OneMoreBit(x: bv8, y: bv8, n: nat)
    requires 0 < n <= 8
    ensures SameUnder(x, y, n) <==> SameUnder(x, y, n - 1) && SameBit(x, y, n - 1)
  {
  }

  /** Comparing under a mask from the table compares that many leading bits. */
  lemma {:induction false} MaskComparesBits(x: bv8, y: bv8, n: nat)
    requires n <= 8
    ensures SameUnder(x, y, n) <==> ByteAgrees(x, y, n)
  {
    if n > 0 {
      MaskComparesBits(x, y, n - 1);
      OneMoreBit(x, y, n);
    }
  }

  lemma WholeByte(x: bv8, y: bv8)
    ensures SameUnder(x, y, 8) <==> x == y
  {
  }

  /** One turn of the loop over the mask: a whole byte, or its leading bits. */
  predicate TestByte(x: bv8, y: bv8, testbits: nat) {
    if testbits >= 8 then x == y else SameUnder(x, y, testbits % 8)
  }

  lemma TestByteMeans(x: bv8, y: bv8, testbits: nat)
    ensures TestByte(x, y, testbits) <==> ByteAgrees(x, y, if testbits >= 8 then 8 else testbits)
  {
    WholeByte(x, y);
    MaskComparesBits(x, y, if testbits >= 8 then 8 else testbits);
  }

  /** The first 8p + n bits agree when the first 8p do and so do n bits of the next byte. */
  lemma NextByte(a: seq<bv8>, b: seq<bv8>, p: nat, n: nat)
    requires n <= 8 && p < |a| && p < |b| && Agree(a, b, 8 * p)
    ensures Agree(a, b, 8 * p + n) <==> ByteAgrees(a[p], b[p], n)
  {
    if Agree(a, b, 8 * p + n) {
      forall j | 0 <= j < n ensures SameBit(a[p], b[p], j) {
        var k := 8 * p + j;
        assert k / 8 == p && k % 8 == j;
        assert AddressBit(a, k) == AddressBit(b, k);
      }
    }
    if ByteAgrees(a[p], b[p], n) {
      forall k | 0 <= k < 8 * p + n ensures AddressBit(a, k) == AddressBit(b, k) {
        if k >= 8 * p {
          assert k / 8 == p && k % 8 == k - 8 * p;
          assert SameBit(a[p], b[p], k % 8);
        }
      }
    }
  }

  // ----- acl.c -----

  /** The inner loop of is_included_in_acl. */
  method EntryMatches(a: seq<bv8>, b: seq<bv8>, mask: nat) returns (r: bool)
    requires mask <= 8 * |a| && |a| == |b|
    ensures r <==> Agree(a, b, mask)
  {
    var testbits: int := mask;
    var p := 0;
    while testbits > 0
      invariant p <= |a| && testbits + 8 * p == mask
      invariant if testbits >= 0 then Agree(a, b, 8 * p) else Agree(a, b, mask)
    {
      NextByte(a, b, p, if testbits >= 8 then 8 else testbits);
      TestByteMeans(a[p], b[p], testbits);
      if !TestByte(a[p], b[p], testbits) {
        return false;
      }
      testbits := testbits - 8;
      p := p + 1;
    }
    return true;
  }

  /** is_included_in_acl */
  method IsIncluded(entries: seq<Entry>, a: Address) returns (r: bool)
    requires IsList(entries) && IsAddress(a)
    ensures r <==> exists i :: 0 <= i < |entries| && Covers(entries[i], a)
  {
    for i := 0 to |entries|
      invariant forall k :: 0 <= k < i ==> !Covers(entries[k], a)
    {
      var e := entries[i];
      if a.family == e.ip.family {
        var matches := EntryMatches(a.bytes, e.ip.bytes, e.mask);
        if matches {
          return true;
        }
      }
    }
    return false;
  }

  /** The addresses a list admits. */
  predicate Admits(acl: AccessList, a: Address)
    requires IsList(acl.entries) && IsAddress(a)
  {
    if |acl.entries| == 0 then !acl.defaultDeny
    else exists i :: 0 <= i < |acl.entries| && Covers(acl.entries[i], a)
  }

  /** acl_includes */
  method Includes(acl: AccessList, a: Address) returns (r: bool)
    requires IsList(acl.entries) && IsAddress(a)
    ensures r <==> Admits(acl, a)
    ensures acl.entries == [] ==> (r <==> !acl.defaultDeny)
    ensures acl.entries != [] ==> (r <==> exists i :: 0 <= i < |acl.entries| && Covers(acl.entries[i], a))
  {
    if |acl.entries| == 0 {
      r := !acl.defaultDeny;
    } else {
      r := IsIncluded(acl.entries, a);
    }
  }

  /** An entry with a full mask covers one address only. */
  lemma FullMask(e: Entry, a: Address)
    requires IsEntry(e) && IsAddress(a) && e.mask == 8 * |e.ip.bytes|
    ensures Covers(e, a) <==> a == e.ip
  {
    if Covers(e, a) {
      var x, y := a.bytes, e.ip.bytes;
      forall p | 0 <= p < |x| ensures x[p] == y[p] {
        forall j | 0 <= j < 8 ensures SameBit(x[p], y[p], j) {
          var k := 8 * p + j;
          assert k / 8 == p && k % 8 == j;
          assert AddressBit(x, k) == AddressBit(y, k);
        }
        TestByteMeans(x[p], y[p], 8);
      }
    }
  }
}
