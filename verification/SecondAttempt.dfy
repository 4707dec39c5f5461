/**
 A listener that has been connected to before.  Its map decides whether the next attempt hands over
 an agreeing copy: exactly if a clear bit means a block of zeroes.  And the way it comes to be
 otherwise: an attempt cut off while the map was being built (src/server/client.c:453-471).
 */
module SecondAttempt {
  import opened Bytes
  import opened Wire
  import opened SparseStores
  import opened MapServer
  import opened MigrationSteps
  import opened Migration
  import opened Listener
  import opened Handover
  import NaiveDisk
  import TornWrite

  // ----- an attempt that has nothing but zeroes to send -----

  /** Nothing but zeroes at the source, on the wire and behind it; `first` was there before. */
  ghost predicate Blank(s: State, tap: Tap, first: seq<byte>) {
    && AllZero(s.src) && (s.xfer.Xfer? ==> AllZero(s.xfer.wire)) && tap.first == first
    && forall i :: 0 <= i < |tap.done| ==> AllZero(tap.done[i].data)
  }

  lemma WriteBlank(s: State, tap: Tap, first: seq<byte>, count: nat)
    requires Blank(s, tap, first) && Enabled(s, MirrorWrite(count))
    ensures Blank(Write(s, count), Hear(s, tap, MirrorWrite(count)), first)
  {
  }

  lemma ReadBlank(s: State, tap: Tap, first: seq<byte>, count: nat)
    requires Blank(s, tap, first) && Enabled(s, MirrorRead(count))
    ensures Blank(Read(s, count), Hear(s, tap, MirrorRead(count)), first)
  {
  }

  lemma TransferBlank(s: State, tap: Tap, first: seq<byte>, a: Step)
    requires Blank(s, tap, first) && Enabled(s, a) && IsTransferStep(a)
    ensures Blank(Apply(s, a), Hear(s, tap, a), first)
  {
    match a
    case MirrorWrite(count) => WriteBlank(s, tap, first, count);
    case MirrorRead(count) => ReadBlank(s, tap, first, count);
    case DestApply(count) => assert ApplyAtDest(s, count).src == s.src;
    case DestAck => assert Ack(s).src == s.src;
  }

  lemma TurnBlank(s: State, tap: Tap, first: seq<byte>, a: Step)
    requires Blank(s, tap, first) && Enabled(s, a) && IsTurn(a) && CalmStep(a, first)
    ensures Blank(Apply(s, a), Hear(s, tap, a), first)
  {
    match a
    case StartAttempt(dst) => assert Start(s, dst).src == s.src;
    case SetupEnd => assert End(s).src == s.src;
    case SendDisconnect(_) =>
    case Fail => assert GiveUp(s).src == s.src;
  }

  lemma ClientBlank(s: State, a: Step)
    requires Enabled(s, a) && IsClientStep(a) && !a.StoreBytes?
    ensures Apply(s, a).src == s.src
  {
  }

  lemma OtherBlank(s: State, a: Step)
    requires Enabled(s, a) && !IsClientStep(a) && !IsTransferStep(a) && !IsTurn(a)
    ensures Apply(s, a).src == s.src
  {
  }

  lemma StepBlank(s: State, tap: Tap, first: seq<byte>, a: Step)
    requires Blank(s, tap, first) && Enabled(s, a) && CalmStep(a, first)
    ensures Blank(Apply(s, a), Hear(s, tap, a), first)
  {
    if IsTransferStep(a) {
      TransferBlank(s, tap, first, a);
    } else if IsTurn(a) {
      TurnBlank(s, tap, first, a);
    } else {
      QuietStep(s, a);
      if IsClientStep(a) {
        ClientBlank(s, a);
      } else {
        OtherBlank(s, a);
      }
    }
  }

  lemma {:induction false} RunBlank(s: State, tap: Tap, first: seq<byte>, run: seq<Step>)
    requires Blank(s, tap, first) && CanRun(s, run) && Calm(run, first)
    ensures Blank(Exec(s, run), Tapped(s, tap, run), first)
    decreases |run|
  {
    if run != [] {
      assert CalmStep(run[0], first);
      StepBlank(s, tap, first, run[0]);
      assert forall i :: 0 <= i < |run[1..]| ==> run[1..][i] == run[i + 1];
      RunBlank(Apply(s, run[0]), Hear(s, tap, run[0]), first, run[1..]);
    }
  }

  // ----- what the listener makes of it -----

  /** Bytes in clear blocks are as they were. */
  ghost predicate Untouched(bytes: seq<byte>, marked: set<nat>, after: seq<byte>) {
    |after| == |bytes| && forall i :: 0 <= i < |bytes| && i / BLOCK !in marked ==> after[i] == bytes[i]
  }

  ghost predicate AllBlank(ts: seq<Transfer>) {
    forall i :: 0 <= i < |ts| ==> AllZero(ts[i].data)
  }

  lemma OneTransfer(d: Disk, t: Transfer, rest: seq<byte>)
    requires Fit(|d.bytes|, t) && |d.bytes| < WORD
    ensures MapServer.Serve(d, TransferBytes(t) + rest).disk == MapServer.Serve(Stored(Tick(d), t.from, t.data), rest).disk
  {
    var header := EncodeRequest(WriteRequest(t));
    WriteDecodes(|d.bytes|, t);
    Sliced(header, t.data, rest);
    ServeGoes(d, TransferBytes(t) + rest, WriteRequest(t));
  }

  lemma OnlyDisconnect(d: Disk, handle: seq<byte>)
    requires |handle| == 8
    ensures MapServer.Serve(d, EncodeRequest(DisconnectRequest(handle))).disk == Tick(d)
  {
    DisconnectDecodes(handle);
    var input := EncodeRequest(DisconnectRequest(handle));
    assert input[..REQUEST_SIZE] == input;
  }

  /** With the map built, a stream of zeroes leaves clear blocks alone. */
  lemma {:induction false} ZeroStream(d: Disk, ts: seq<Transfer>, handle: seq<byte>)
    requires |handle| == 8 && Fits(|d.bytes|, ts) && |d.bytes| < WORD && Tick(d).build.Built? && AllBlank(ts)
    ensures Untouched(d.bytes, Tick(d).marked, MapServer.Serve(d, MirrorStream(ts, handle)).disk.bytes)
    decreases |ts|
  {
    var e := Tick(d);
    if ts == [] {
      assert MirrorStream(ts, handle) == EncodeRequest(DisconnectRequest(handle));
      OnlyDisconnect(d, handle);
    } else {
      var t := ts[0];
      FitsTail(|d.bytes|, ts);
      StreamStarts(ts, handle);
      OneTransfer(d, t, MirrorStream(ts[1..], handle));
      ZeroesSkip(SparseStores.Store(e.bytes, e.marked), t.from, t.data);
      assert forall i :: 0 <= i < |ts[1..]| ==> ts[1..][i] == ts[i + 1];
      ZeroStream(Stored(e, t.from, t.data), ts[1..], handle);
    }
  }

  // ----- the handover -----

  /** A migration to a listener that held `first` when the latest attempt began, all the way. */
  ghost predicate Migrates(s: State, run: seq<Step>, first: seq<byte>) {
    Initial(s) && CanRun(s, run) && Tapped(s, Silence(s), run).first == first && Exec(s, run).phase.Done?
  }

  /** What the listener then holds. */
  ghost function Received(s: State, run: seq<Step>, d: Disk): seq<byte>
    requires CanRun(s, run)
  {
    MapServer.Serve(d, Tapped(s, Silence(s), run).sent).disk.bytes
  }

  /** Every migration to this listener hands over an agreeing copy. */
  ghost predicate HandsOverWell(d: Disk) {
    forall s, run :: Migrates(s, run, d.bytes) ==> LetGo(Exec(s, run), Received(s, run, d))
  }

  /** A source of zeroes, migrated undisturbed, leaves the byte behind the clear bit. */
  lemma BadHandover(d: Disk, b: nat) returns (s: State, run: seq<Step>)
    requires b < |d.bytes| < WORD && Tick(d).build.Built? && d.bytes[b] != 0 && b / BLOCK !in Tick(d).marked
    ensures Migrates(s, run, d.bytes) && Exec(s, run).torn == {}
    ensures |Received(s, run, d)| == |Exec(s, run).src| == |d.bytes| && Received(s, run, d)[b] != Exec(s, run).src[b]
  {
    var zeroes := seq(|d.bytes|, _ => 0);
    s := TornWrite.Before(zeroes, d.bytes);
    var t := TornWrite.CalmlyDone(zeroes, d.bytes);
    run :| CanRun(s, run) && Exec(s, run) == t && Calm(run, s.dst);
    var tap := Tapped(s, Silence(s), run);
    RunBlank(s, Silence(s), d.bytes, run);
    InitiallySilent(s);
    RunHeard(s, Silence(s), run);
    ZeroStream(d, tap.done, tap.handle);
  }

  /** Once the map is built, exactly the listeners that keep the promise are handed an agreeing copy. */
  lemma HandoverIff(d: Disk)
    requires |d.bytes| < WORD && Tick(d).build.Built?
    ensures HandsOverWell(d) <==> Promise(d)
  {
    if Promise(d) {
      forall s, run | Migrates(s, run, d.bytes) ensures LetGo(Exec(s, run), Received(s, run, d)) {
        HandoverAfter(d, [], d, s, run);
      }
    } else {
      var b: nat :| b < |d.bytes| && b / BLOCK !in Tick(d).marked && d.bytes[b] != 0;
      var s, run := BadHandover(d, b);
      assert Migrates(s, run, d.bytes) && !LetGo(Exec(s, run), Received(s, run, d));
    }
  }

  // ----- how it comes about -----

  /** A listener on an empty file, whose map will be built after one more request. */
  function Fresh(size: nat): Disk {
    Disk(seq(size, _ => 0), {}, After(1, []))
  }

  /** A first attempt: a transfer of two bytes of which one arrives. */
  function BrokenOff(b: nat): seq<byte> {
    EncodeRequest(MirrorRequest(b, 2)) + [1]
  }

  lemma CutDecodes(b: nat)
    requires b < WORD
    ensures DecodeRequest(BrokenOff(b)[..REQUEST_SIZE]) == MirrorRequest(b, 2) && BrokenOff(b)[REQUEST_SIZE..] == [1]
  {
    Widths();
    RequestRoundTrip(MirrorRequest(b, 2));
    assert BrokenOff(b)[..REQUEST_SIZE] == EncodeRequest(MirrorRequest(b, 2));
  }

  /**
   For every byte but the last of the file: a first attempt cut off just after it, while the map was
   being built, and a second one, undisturbed, that hands over a copy with that byte different.
   */
  lemma SpoiltRestart(size: nat, b: nat) returns (d: Disk, s: State, run: seq<Step>)
    requires b + 1 < size < WORD
    ensures Promise(Fresh(size)) && Tame(size, Fresh(size).build, BrokenOff(b)) && Leaves(Fresh(size), BrokenOff(b), d)
    ensures Migrates(s, run, d.bytes) && Exec(s, run).torn == {}
    ensures |Received(s, run, d)| == |Exec(s, run).src| == size && Received(s, run, d)[b] != Exec(s, run).src[b]
  {
    var first := Fresh(size);
    d := Disk(Splice(first.bytes, b, [1]), {}, After(0, []));
    CutDecodes(b);
    assert MapServer.Serve(first, BrokenOff(b)).end == NaiveDisk.CutOff(b, [1]);
    s, run := BadHandover(d, b);
  }
}
