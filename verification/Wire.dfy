/**
 The NBD wire formats of src/common/nbdtypes.c: host structures to and from raw big-endian
 bytes.  The handle is copied verbatim, it is never byte-swapped.
 */
module Wire {
  import opened Bytes

  const REQUEST_MAGIC: nat := 0x25609513
  const REPLY_MAGIC: nat := 0x67446698
  const INIT_MAGIC: nat := 0x0000420281861253
  /** "NBDMAGIC" */
  const INIT_PASSWD: seq<byte> := [78, 66, 68, 77, 65, 71, 73, 67]

  const REQUEST_READ: nat := 0
  const REQUEST_WRITE: nat := 1
  const REQUEST_DISCONNECT: nat := 2
  const REQUEST_FLUSH: nat := 3

  const NBD_MAX_SIZE: nat := 33554432
  const REQUEST_SIZE: nat := 28
  const REPLY_SIZE: nat := 16
  const INIT_SIZE: nat := 152

  // ----- big-endian numbers -----

  function Pow256(k: nat): (p: nat)
    ensures p >= 1
  {
    if k == 0 then 1 else 256 * Pow256(k - 1)
  }

  /** The low `k` bytes of `n`, most significant first (htobe16, htobe32, htobe64). */
  function ToBE(n: nat, k: nat): (s: seq<byte>)
    ensures |s| == k
  {
    if k == 0 then [] else ToBE(n / 256, k - 1) + [n % 256]
  }

  /** be16toh, be32toh, be64toh. */
  function FromBE(s: seq<byte>): (n: nat) {
    if s == [] then 0 else 256 * FromBE(s[..|s| - 1]) + s[|s| - 1]
  }

  lemma {:induction false} FromBEBound(s: seq<byte>)
    ensures FromBE(s) < Pow256(|s|)
  {
    if s != [] {
      FromBEBound(s[..|s| - 1]);
    }
  }

  lemma {:induction false} NumberRoundTrip(n: nat, k: nat)
    requires n < Pow256(k)
    ensures FromBE(ToBE(n, k)) == n
  {
    if k != 0 {
      var init := ToBE(n / 256, k - 1);
      OneByteLess(n, Pow256(k - 1));
      NumberRoundTrip(n / 256, k - 1);
      LastByte(init, n % 256);
    }
  }

  lemma OneByteLess(n: nat, p: nat)
    requires n < 256 * p
    ensures n / 256 < p && n == 256 * (n / 256) + n % 256
  {
  }

  lemma LastByte(init: seq<byte>, last: byte)
    ensures FromBE(init + [last]) == 256 * FromBE(init) + last
  {
    assert (init + [last])[..|init + [last]| - 1] == init;
  }

  lemma {:induction false} BytesRoundTrip(s: seq<byte>)
    ensures ToBE(FromBE(s), |s|) == s
  {
    if s != [] {
      var init, last := s[..|s| - 1], s[|s| - 1];
      BytesRoundTrip(init);
      assert FromBE(s) / 256 == FromBE(init) && FromBE(s) % 256 == last;
    }
  }

  /** Most significant byte first. */
  lemma {:induction false} FirstByteCounts(first: byte, s: seq<byte>)
    ensures FromBE([first] + s) == first * Pow256(|s|) + FromBE(s)
    decreases |s|
  {
    if s == [] {
      assert [first] + s == [] + [first];
      LastByte([], first);
    } else {
      var init, last := s[..|s| - 1], s[|s| - 1];
      FirstByteCounts(first, init);
      assert s == init + [last];
      assert [first] + s == ([first] + init) + [last];
      LastByte([first] + init, last);
      LastByte(init, last);
      OneMoreByte(first, Pow256(|init|), FromBE(init), last);
    }
  }

  lemma OneMoreByte(first: nat, p: nat, n: nat, last: nat)
    ensures 256 * (first * p + n) + last == first * (256 * p) + (256 * n + last)
  {
  }

  /** Four bytes and what they stand for. */
  lemma Four(a: byte, b: byte, c: byte, d: byte)
    ensures FromBE([a, b, c, d]) == 16777216 * a + 65536 * b + 256 * c + d
    ensures ToBE(16777216 * a + 65536 * b + 256 * c + d, 4) == [a, b, c, d]
  {
    var one: seq<byte> := [] + [a];
    var two := one + [b];
    var three := two + [c];
    LastByte([], a);
    LastByte(one, b);
    LastByte(two, c);
    LastByte(three, d);
    Backwards(three + [d], 16777216 * a + 65536 * b + 256 * c + d);
    assert three + [d] == [a, b, c, d];
  }

  lemma Backwards(s: seq<byte>, n: nat)
    requires FromBE(s) == n
    ensures ToBE(n, |s|) == s
  {
    BytesRoundTrip(s);
  }

  lemma Two(a: byte, b: byte)
    ensures ToBE(256 * a + b, 2) == [a, b]
  {
    LastByte([], a);
    LastByte([a], b);
    assert [] + [a] == [a] && [a] + [b] == [a, b];
    BytesRoundTrip([a, b]);
  }

  lemma Widths()
    ensures Pow256(2) == 0x1_0000 && Pow256(4) == 0x1_0000_0000 && Pow256(8) == 0x1_0000_0000_0000_0000
  {
    assert Pow256(2) == 256 * Pow256(1);
    assert Pow256(4) == 256 * Pow256(3) && Pow256(3) == 256 * Pow256(2);
    assert Pow256(8) == 256 * Pow256(7) && Pow256(7) == 256 * Pow256(6);
    assert Pow256(6) == 256 * Pow256(5) && Pow256(5) == 256 * Pow256(4);
  }

  // ----- request -----

  datatype Request = Request(magic: nat, flags: nat, typ: nat, handle: seq<byte>, from: nat, len: nat)

  /** The values a `struct nbd_request` can hold. */
  ghost predicate IsRequest(r: Request) {
    && r.magic < Pow256(4) && r.flags < Pow256(2) && r.typ < Pow256(2)
    && |r.handle| == 8 && r.from < Pow256(8) && r.len < Pow256(4)
  }

  /** nbd_h2r_request */
  function EncodeRequest(r: Request): (s: seq<byte>)
    requires |r.handle| == 8
    ensures |s| == REQUEST_SIZE
  {
    ToBE(r.magic, 4) + ToBE(r.flags, 2) + ToBE(r.typ, 2) + r.handle + ToBE(r.from, 8) + ToBE(r.len, 4)
  }

  /** nbd_r2h_request */
  function DecodeRequest(s: seq<byte>): (r: Request)
    requires |s| == REQUEST_SIZE
    ensures |r.handle| == 8
  {
    Request(FromBE(s[0..4]), FromBE(s[4..6]), FromBE(s[6..8]), s[8..16], FromBE(s[16..24]), FromBE(s[24..28]))
  }

  lemma RequestFields(r: Request)
    requires |r.handle| == 8
    ensures var s := EncodeRequest(r);
            && s[0..4] == ToBE(r.magic, 4) && s[4..6] == ToBE(r.flags, 2) && s[6..8] == ToBE(r.typ, 2)
            && s[8..16] == r.handle && s[16..24] == ToBE(r.from, 8) && s[24..28] == ToBE(r.len, 4)
  {
  }

  lemma RequestRoundTrip(r: Request)
    requires IsRequest(r)
    ensures DecodeRequest(EncodeRequest(r)) == r
  {
    RequestFields(r);
    NumberRoundTrip(r.magic, 4); NumberRoundTrip(r.flags, 2); NumberRoundTrip(r.typ, 2);
    NumberRoundTrip(r.from, 8); NumberRoundTrip(r.len, 4);
  }

  /** Every 28-byte string is a request and survives decoding and re-encoding. */
  lemma RequestBytesRoundTrip(s: seq<byte>)
    requires |s| == REQUEST_SIZE
    ensures IsRequest(DecodeRequest(s))
    ensures EncodeRequest(DecodeRequest(s)) == s
  {
    BytesRoundTrip(s[0..4]); BytesRoundTrip(s[4..6]); BytesRoundTrip(s[6..8]);
    BytesRoundTrip(s[16..24]); BytesRoundTrip(s[24..28]);
    FromBEBound(s[0..4]); FromBEBound(s[4..6]); FromBEBound(s[6..8]);
    FromBEBound(s[16..24]); FromBEBound(s[24..28]);
    assert s == s[0..4] + s[4..6] + s[6..8] + s[8..16] + s[16..24] + s[24..28];
  }

  /** ".MIRROR." */
  const MIRROR_HANDLE: seq<byte> := [46, 77, 73, 82, 82, 79, 82, 46]

  /** The request a mirror sends for a transfer. */
  function MirrorRequest(from: nat, len: nat): (r: Request)
    ensures |r.handle| == 8
  {
    Request(REQUEST_MAGIC, 0, REQUEST_WRITE, MIRROR_HANDLE, from, len)
  }

  /** The first bytes of a mirror's transfer: 0x25609513, no flags, type 1 and the handle ".MIRROR.". */
  lemma MirrorHeader(from: nat, len: nat)
    ensures EncodeRequest(MirrorRequest(from, len)) ==
            [0x25, 0x60, 0x95, 0x13, 0, 0, 0, 1, 46, 77, 73, 82, 82, 79, 82, 46] + ToBE(from, 8) + ToBE(len, 4)
  {
    Four(0x25, 0x60, 0x95, 0x13);
    Two(0, 0);
    Two(0, 1);
    Head(ToBE(0x25609513, 4), ToBE(0, 2), ToBE(1, 2), MIRROR_HANDLE, ToBE(from, 8), ToBE(len, 4));
  }

  lemma Head(a: seq<byte>, b: seq<byte>, c: seq<byte>, d: seq<byte>, x: seq<byte>, y: seq<byte>)
    requires a == [0x25, 0x60, 0x95, 0x13] && b == [0, 0] && c == [0, 1] && d == [46, 77, 73, 82, 82, 79, 82, 46]
    ensures a + b + c + d + x + y == [0x25, 0x60, 0x95, 0x13, 0, 0, 0, 1, 46, 77, 73, 82, 82, 79, 82, 46] + x + y
  {
    assert a + b + c + d == [0x25, 0x60, 0x95, 0x13, 0, 0, 0, 1, 46, 77, 73, 82, 82, 79, 82, 46];
  }

  // ----- reply -----

  datatype Reply = Reply(magic: nat, error: nat, handle: seq<byte>)

  ghost predicate IsReply(r: Reply) {
    r.magic < Pow256(4) && r.error < Pow256(4) && |r.handle| == 8
  }

  /** nbd_h2r_reply */
  function EncodeReply(r: Reply): (s: seq<byte>)
    requires |r.handle| == 8
    ensures |s| == REPLY_SIZE
  {
    ToBE(r.magic, 4) + ToBE(r.error, 4) + r.handle
  }

  /** nbd_r2h_reply */
  function DecodeReply(s: seq<byte>): (r: Reply)
    requires |s| == REPLY_SIZE
    ensures |r.handle| == 8
  {
    Reply(FromBE(s[0..4]), FromBE(s[4..8]), s[8..16])
  }

  /** 0x67446698, the error and the handle, in that order. */
  lemma ReplyFields(error: byte, handle: seq<byte>)
    requires |handle| == 8
    ensures EncodeReply(Reply(0x67446698, error, handle)) == [0x67, 0x44, 0x66, 0x98, 0, 0, 0, error] + handle
    ensures DecodeReply([0x67, 0x44, 0x66, 0x98, 0, 0, 0, error] + handle) == Reply(0x67446698, error, handle)
  {
    Four(0x67, 0x44, 0x66, 0x98);
    Four(0, 0, 0, error);
    var s := [0x67, 0x44, 0x66, 0x98, 0, 0, 0, error] + handle;
    assert s[0..4] == [0x67, 0x44, 0x66, 0x98] && s[4..8] == [0, 0, 0, error] && s[8..16] == handle;
  }

  lemma ReplyRoundTrip(r: Reply)
    requires IsReply(r)
    ensures DecodeReply(EncodeReply(r)) == r
  {
    var s := EncodeReply(r);
    assert s[0..4] == ToBE(r.magic, 4) && s[4..8] == ToBE(r.error, 4) && s[8..16] == r.handle;
    NumberRoundTrip(r.magic, 4); NumberRoundTrip(r.error, 4);
  }

  lemma ReplyBytesRoundTrip(s: seq<byte>)
    requires |s| == REPLY_SIZE
    ensures EncodeReply(DecodeReply(s)) == s
  {
    BytesRoundTrip(s[0..4]); BytesRoundTrip(s[4..8]);
    assert s == s[0..4] + s[4..8] + s[8..16];
  }

  // ----- hello -----

  /** nbd_hello_to_buf: passwd, magic, size, flags and 124 reserved zero bytes. */
  function EncodeHello(size: nat, flags: nat): (s: seq<byte>)
    ensures |s| == INIT_SIZE
  {
    INIT_PASSWD + ToBE(INIT_MAGIC, 8) + ToBE(size, 8) + ToBE(flags, 4) + seq(124, _ => 0)
  }

  /** nbd_check_hello: the announced size and flags, or nothing when passwd or magic is wrong. */
  function CheckHello(s: seq<byte>): (r: (bool, nat, nat))
    requires |s| == INIT_SIZE
  {
    if s[0..8] != INIT_PASSWD || FromBE(s[8..16]) != INIT_MAGIC then (false, 0, 0)
    else (true, FromBE(s[16..24]), FromBE(s[24..28]))
  }

  lemma HelloFields(size: nat, flags: nat)
    ensures var s := EncodeHello(size, flags);
            && s[0..8] == INIT_PASSWD && s[8..16] == ToBE(INIT_MAGIC, 8)
            && s[16..24] == ToBE(size, 8) && s[24..28] == ToBE(flags, 4) && forall i :: 28 <= i < 152 ==> s[i] == 0
  {
  }

  lemma InitMagicFits()
    ensures INIT_MAGIC < Pow256(8)
  {
    Widths();
  }

  lemma HelloRoundTrip(size: nat, flags: nat)
    requires size < Pow256(8) && flags < Pow256(4)
    ensures CheckHello(EncodeHello(size, flags)) == (true, size, flags)
  {
    HelloFields(size, flags);
    InitMagicFits();
    NumberRoundTrip(INIT_MAGIC, 8); NumberRoundTrip(size, 8); NumberRoundTrip(flags, 4);
  }

  lemma MagicBytes()
    ensures ToBE(INIT_MAGIC, 8) == [0, 0, 66, 2, 129, 134, 18, 83]
  {
    var m: seq<byte> := [0, 0, 66, 2, 129, 134, 18, 83];
    Four(0, 0, 66, 2);
    LastByte(m[..4], 129);
    LastByte(m[..5], 134);
    LastByte(m[..6], 18);
    LastByte(m[..7], 83);
    assert m[..4] == [0, 0, 66, 2] && m[..5] == m[..4] + [129] && m[..6] == m[..5] + [134];
    assert m[..7] == m[..6] + [18] && m == m[..7] + [83];
    BytesRoundTrip(m);
  }

  /** A greeting is taken exactly if it begins with "NBDMAGIC" and 0x00420281861253; what it then announces. */
  lemma HelloIff(s: seq<byte>)
    requires |s| == INIT_SIZE
    ensures CheckHello(s).0 <==> s[..16] == [78, 66, 68, 77, 65, 71, 73, 67, 0, 0, 66, 2, 129, 134, 18, 83]
    ensures CheckHello(s).0 ==> CheckHello(s).1 == FromBE(s[16..24]) && CheckHello(s).2 == FromBE(s[24..28])
  {
    var greeting: seq<byte> := [78, 66, 68, 77, 65, 71, 73, 67, 0, 0, 66, 2, 129, 134, 18, 83];
    MagicBytes();
    InitMagicFits();
    NumberRoundTrip(INIT_MAGIC, 8);
    BytesRoundTrip(s[8..16]);
    assert s[..16] == s[0..8] + s[8..16];
    assert greeting == greeting[0..8] + greeting[8..16];
    assert greeting[0..8] == INIT_PASSWD && greeting[8..16] == ToBE(INIT_MAGIC, 8);
    assert s[..16][0..8] == s[0..8] && s[..16][8..16] == s[8..16];
  }
}
