/**
 What a listener makes of the bytes a flexnbd mirror sends it (src/server/client.c:685-726 fed by
 src/server/mirror.c): writes, and at the very end a DISCONNECT.
 */
module Listener {
  import opened Bytes
  import opened Wire
  import opened NaiveDisk
  import opened MapServer

  /** One transfer, with the bytes as they went over the wire. */
  datatype Transfer = Transfer(from: nat, data: seq<byte>)

  /** A transfer a mirror can make of an image of `size` bytes. */
  ghost predicate Fit(size: nat, t: Transfer) {
    0 < t.from + |t.data| <= size && t.from < Pow256(8) && |t.data| < Pow256(4)
  }

  ghost predicate Fits(size: nat, ts: seq<Transfer>) {
    forall i :: 0 <= i < |ts| ==> Fit(size, ts[i])
  }

  function WriteRequest(t: Transfer): (r: Request)
    ensures |r.handle| == 8
  {
    MirrorRequest(t.from, |t.data|)
  }

  function DisconnectRequest(handle: seq<byte>): Request {
    Request(REQUEST_MAGIC, 0, REQUEST_DISCONNECT, handle, 0, 0)
  }

  /** A transfer on the wire. */
  function TransferBytes(t: Transfer): seq<byte> {
    EncodeRequest(WriteRequest(t)) + t.data
  }

  function Writes(ts: seq<Transfer>): seq<byte> {
    if ts == [] then [] else TransferBytes(ts[0]) + Writes(ts[1..])
  }

  /** Everything a flexnbd mirror sends over a successful attempt. */
  function MirrorStream(ts: seq<Transfer>, handle: seq<byte>): seq<byte>
    requires |handle| == 8
  {
    Writes(ts) + EncodeRequest(DisconnectRequest(handle))
  }

  function Applied(disk: seq<byte>, ts: seq<Transfer>): (d: seq<byte>)
    requires Fits(|disk|, ts)
    ensures |d| == |disk|
    decreases |ts|
  {
    if ts == [] then disk
    else
      FitsTail(|disk|, ts);
      Applied(Splice(disk, ts[0].from, ts[0].data), ts[1..])
  }

  lemma FitsTail(size: nat, ts: seq<Transfer>)
    requires Fits(size, ts) && ts != []
    ensures Fits(size, ts[1..]) && Fit(size, ts[0])
  {
    forall i | 0 <= i < |ts[1..]| ensures Fit(size, ts[1..][i]) {
      assert ts[1..][i] == ts[i + 1];
    }
  }

  lemma FitsMore(size: nat, ts: seq<Transfer>, t: Transfer)
    requires Fits(size, ts) && Fit(size, t)
    ensures Fits(size, ts + [t])
  {
  }

  lemma {:induction false} WritesMore(ts: seq<Transfer>, t: Transfer)
    ensures Writes(ts + [t]) == Writes(ts) + TransferBytes(t)
  {
    var more := ts + [t];
    if ts == [] {
      assert more[1..] == [];
      assert TransferBytes(t) + [] == TransferBytes(t) == [] + TransferBytes(t);
    } else {
      WritesMore(ts[1..], t);
      assert more[1..] == ts[1..] + [t];
      Regroup(TransferBytes(ts[0]), Writes(ts[1..]), TransferBytes(t));
    }
  }

  lemma {:induction false} AppliedMore(disk: seq<byte>, ts: seq<Transfer>, t: Transfer)
    requires Fits(|disk|, ts) && Fit(|disk|, t)
    ensures Fits(|disk|, ts + [t])
    ensures Applied(disk, ts + [t]) == Splice(Applied(disk, ts), t.from, t.data)
    decreases |ts|
  {
    var more := ts + [t];
    FitsMore(|disk|, ts, t);
    if ts == [] {
      assert more[1..] == [];
    } else {
      FitsTail(|disk|, ts);
      assert more[1..] == ts[1..] + [t];
      AppliedMore(Splice(disk, ts[0].from, ts[0].data), ts[1..], t);
    }
  }

  // ----- request by request -----

  lemma WriteDecodes(size: nat, t: Transfer)
    requires Fit(size, t)
    ensures DecodeRequest(EncodeRequest(WriteRequest(t))) == WriteRequest(t)
  {
    Widths();
    RequestRoundTrip(WriteRequest(t));
  }

  lemma DisconnectDecodes(handle: seq<byte>)
    requires |handle| == 8
    ensures DecodeRequest(EncodeRequest(DisconnectRequest(handle))) == DisconnectRequest(handle)
  {
    Widths();
    RequestRoundTrip(DisconnectRequest(handle));
  }

  lemma Sliced(header: seq<byte>, data: seq<byte>, more: seq<byte>)
    ensures var input := (header + data) + more;
            && input[..|header|] == header
            && input[|header|..][..|data|] == data && input[|header|..][|data|..] == more
  {
  }

  /**
   Serving `input` hands over control if and only if it is the whole stream, and then leaves
   `result`; and the listener's code can deal with every request in it.
   */
  ghost predicate Gains(disk: seq<byte>, input: seq<byte>, whole: bool, result: seq<byte>) {
    var s := Run(disk, input);
    && !s.end.BadMagic? && (s.end.Disconnected? <==> whole) && (s.end.Disconnected? ==> s.disk == result)
    && forall build :: Tame(|disk|, build, input)
  }

  /** A write that arrives whole is applied, and the session goes on with what follows. */
  lemma WriteArrives(disk: seq<byte>, t: Transfer, header: seq<byte>, more: seq<byte>, whole: bool, result: seq<byte>)
    requires Fit(|disk|, t) && header == EncodeRequest(WriteRequest(t)) && |disk| < WORD
    requires Gains(Splice(disk, t.from, t.data), more, whole, result)
    ensures Gains(disk, (header + t.data) + more, whole, result)
  {
    var input := (header + t.data) + more;
    WriteDecodes(|disk|, t);
    Sliced(header, t.data, more);
    RunGoes(disk, input, WriteRequest(t));
    TameMore(|disk|, WriteRequest(t), input, more);
  }

  lemma TameMore(size: nat, r: Request, input: seq<byte>, more: seq<byte>)
    requires |input| >= REQUEST_SIZE + r.len && r == DecodeRequest(input[..REQUEST_SIZE]) && more == input[REQUEST_SIZE..][r.len..]
    requires r.magic == REQUEST_MAGIC && r.typ == REQUEST_WRITE && 0 < r.from + r.len <= size < WORD
    requires forall build :: Tame(size, build, more)
    ensures forall build :: Tame(size, build, input)
  {
  }

  /** One that breaks off in its header or its payload ends the session without control. */
  lemma WriteBreaksOff(disk: seq<byte>, t: Transfer, header: seq<byte>, k: nat, result: seq<byte>)
    requires Fit(|disk|, t) && header == EncodeRequest(WriteRequest(t)) && |disk| < WORD
    requires k < REQUEST_SIZE + |t.data|
    ensures Gains(disk, (header + t.data)[..k], false, result)
  {
    if k >= REQUEST_SIZE {
      var input := (header + t.data)[..k];
      WriteDecodes(|disk|, t);
      assert input[..REQUEST_SIZE] == header;
    }
  }

  lemma DisconnectArrives(disk: seq<byte>, handle: seq<byte>, k: nat)
    requires |handle| == 8 && k <= REQUEST_SIZE
    ensures Gains(disk, EncodeRequest(DisconnectRequest(handle))[..k], k == REQUEST_SIZE, disk)
  {
    if k == REQUEST_SIZE {
      DisconnectDecodes(handle);
      var input := EncodeRequest(DisconnectRequest(handle));
      assert input[..k] == input && input[..k][..REQUEST_SIZE] == input;
    }
  }

  lemma FirstCut(first: seq<byte>, rest: seq<byte>, k: nat)
    requires k <= |first| + |rest|
    ensures (first + rest)[..k] == if k < |first| then first[..k] else first + rest[..k - |first|]
  {
  }

  lemma StreamStarts(ts: seq<Transfer>, handle: seq<byte>)
    requires |handle| == 8 && ts != []
    ensures MirrorStream(ts, handle) == TransferBytes(ts[0]) + MirrorStream(ts[1..], handle)
  {
    Regroup(TransferBytes(ts[0]), Writes(ts[1..]), EncodeRequest(DisconnectRequest(handle)));
  }

  /**
   A listener fed by a flexnbd mirror, wherever the connection breaks: it gains control if
   and only if the whole stream with its closing DISCONNECT arrived, and then its disk is the
   result of every transfer in order.
   */
  lemma {:induction false} ListenerControl(disk: seq<byte>, ts: seq<Transfer>, handle: seq<byte>, k: nat)
    requires |handle| == 8 && Fits(|disk|, ts) && |disk| < WORD && k <= |MirrorStream(ts, handle)|
    ensures Gains(disk, MirrorStream(ts, handle)[..k], k == |MirrorStream(ts, handle)|, Applied(disk, ts))
    decreases |ts|
  {
    if ts == [] {
      assert MirrorStream(ts, handle) == EncodeRequest(DisconnectRequest(handle));
      DisconnectArrives(disk, handle, k);
    } else {
      var t, rest := ts[0], MirrorStream(ts[1..], handle);
      var header := EncodeRequest(WriteRequest(t));
      FitsTail(|disk|, ts);
      StreamStarts(ts, handle);
      FirstCut(header + t.data, rest, k);
      if k < REQUEST_SIZE + |t.data| {
        WriteBreaksOff(disk, t, header, k, Applied(disk, ts));
      } else {
        var n := k - (REQUEST_SIZE + |t.data|);
        ListenerControl(Splice(disk, t.from, t.data), ts[1..], handle, n);
        WriteArrives(disk, t, header, rest[..n], n == |rest|, Applied(disk, ts));
      }
    }
  }
}
