/**
 From the source's last byte to the listener's control: the bytes a migration sends are the
 stream of Listener, so a listener fed with them gains control only with an agreeing copy.
 */
module Handover {
  import opened Bytes
  import opened Wire
  import opened MigrationSteps
  import opened Migration
  import opened Listener
  import NaiveDisk
  import MapServer
  import Mirror
  import Sessions
  import Serve

  /**
   What one attempt has put on the wire: the listener's disk when it began, every byte sent since,
   the transfers acknowledged, and the handle of the DISCONNECT.  `base` and `disk` are wire and
   destination at the last acknowledgement, `header` is that of the transfer set up since.
   */
  datatype Tap = Tap(first: seq<byte>, sent: seq<byte>, done: seq<Transfer>, handle: seq<byte>,
                     base: seq<byte>, disk: seq<byte>, header: seq<byte>)

  /** The bytes a write() of mirror_write_cb takes, as Mirror.Ctrl.WriteCb hands them over. */
  function NowSent(header: seq<byte>, x: Xfer, src: seq<byte>, count: nat): seq<byte>
    requires |header| == REQUEST_SIZE
    requires x.Xfer? && x.written <= REQUEST_SIZE + x.len && x.from + x.len <= |src| && count <= ToWrite(x)
  {
    Mirror.WholeTransfer(header, src, x.from, x.len)[x.written..x.written + count]
  }

  function HeaderOf(x: Xfer): (h: seq<byte>)
    requires x.Xfer?
    ensures |h| == REQUEST_SIZE
  {
    EncodeRequest(MirrorRequest(x.from, x.len))
  }

  function Hear(s: State, tap: Tap, a: Step): Tap
    requires Enabled(s, a)
  {
    match a
    case StartAttempt(dst) => Tap(dst, [], [], [], [], dst, [])
    case SetupEnd => tap.(header := if End(s).xfer.Xfer? then HeaderOf(End(s).xfer) else tap.header)
    case MirrorWrite(count) => tap.(sent := tap.sent + NowSent(HeaderOf(s.xfer), s.xfer, s.src, count))
    case MirrorRead(count) => if s.xfer.read + count == REPLY_SIZE then Acknowledged(s, tap) else tap
    case SendDisconnect(handle) => tap.(sent := tap.sent + EncodeRequest(DisconnectRequest(handle)), handle := handle)
    case _ => tap
  }

  function Acknowledged(s: State, tap: Tap): Tap
    requires s.xfer.Xfer?
  {
    tap.(done := tap.done + [Transfer(s.xfer.from, s.xfer.wire)], base := tap.sent, disk := s.dst)
  }

  /** The wire over a whole run: that of its latest attempt. */
  function Tapped(s: State, tap: Tap, run: seq<Step>): Tap
    requires CanRun(s, run)
    decreases |run|
  {
    if run == [] then tap else Tapped(Apply(s, run[0]), Hear(s, tap, run[0]), run[1..])
  }

  /** No attempt yet. */
  function Silence(s: State): Tap {
    Tap(s.dst, [], [], [], [], s.dst, [])
  }

  // ----- what is on the wire -----

  ghost predicate XferOk(size: nat, x: Xfer) {
    x.Xfer? ==>
      && IsPiece(size, x.from, x.from + x.len) && x.applied <= |x.wire| <= x.len
      && x.written <= REQUEST_SIZE + x.len
      && |x.wire| == if x.written < REQUEST_SIZE then 0 else x.written - REQUEST_SIZE
  }

  /** The part of the transfer in progress that has been sent. */
  function OnTheWay(header: seq<byte>, x: Xfer): seq<byte> {
    if x.NoXfer? then [] else header[..Min(x.written, |header|)] + x.wire
  }

  /** A disk with the part of the transfer that has been applied. */
  function Landed(disk: seq<byte>, x: Xfer): seq<byte>
    requires XferOk(|disk|, x)
  {
    if x.NoXfer? then disk else Splice(disk, x.from, x.wire[..x.applied])
  }

  /** While an attempt runs: what was sent and applied beyond the last acknowledgement. */
  ghost predicate InStep(size: nat, dst: seq<byte>, x: Xfer, tap: Tap) {
    && |tap.disk| == size && XferOk(size, x) && (x.Xfer? ==> |tap.header| == REQUEST_SIZE)
    && tap.sent == tap.base + OnTheWay(tap.header, x) && dst == Landed(tap.disk, x)
  }

  /** What wire and destination amounted to at the last acknowledgement. */
  ghost predicate Meant(size: nat, tap: Tap) {
    && |tap.first| == size && Fits(size, tap.done)
    && tap.base == Writes(tap.done) && tap.disk == Applied(tap.first, tap.done)
  }

  ghost predicate HeaderMeant(x: Xfer, tap: Tap) {
    x.Xfer? ==> tap.header == HeaderOf(x)
  }

  /** Short of a DISCONNECT: a proper part of what some mirror might send. */
  ghost predicate Partial(size: nat, sent: seq<byte>) {
    exists ts, handle :: |handle| == 8 && Fits(size, ts) && sent <= MirrorStream(ts, handle) && |sent| < |MirrorStream(ts, handle)|
  }

  /** No attempt is running, one is, or one has ended with its DISCONNECT. */
  datatype Stage = Off | Live | Over

  function StageOf(p: Phase): Stage {
    if p.Resting? || p.Failing? then Off else if p.Done? then Over else Live
  }

  ghost predicate Handed(size: nat, dst: seq<byte>, tap: Tap) {
    && |tap.first| == size && Fits(size, tap.done) && |tap.handle| == 8
    && tap.sent == MirrorStream(tap.done, tap.handle) && dst == Applied(tap.first, tap.done)
  }

  ghost predicate OnCourse(size: nat, dst: seq<byte>, x: Xfer, tap: Tap) {
    InStep(size, dst, x, tap) && Meant(size, tap) && HeaderMeant(x, tap)
  }

  ghost predicate Heard(s: State, tap: Tap) {
    match StageOf(s.phase)
    case Off => |tap.first| == s.size && Partial(s.size, tap.sent)
    case Live => OnCourse(s.size, s.dst, s.xfer, tap)
    case Over => Handed(s.size, s.dst, tap)
  }

  /** What the steps need of the migration's invariant. */
  ghost predicate Facts(s: State) {
    && s.size == |s.src| < WORD && XferOk(s.size, s.xfer)
    && (s.xfer.Xfer? ==> StageOf(s.phase).Live?)
    && (s.phase.Setup? || s.phase.Closed? ==> s.xfer.NoXfer?)
    && (s.xfer.Xfer? && s.xfer.acked ==> s.xfer.applied == s.xfer.len && s.xfer.written == REQUEST_SIZE + s.xfer.len)
  }

  lemma InvFacts(s: State)
    requires Inv(s)
    ensures Facts(s)
  {
  }

  // ----- sending and applying -----

  lemma SentGrows(header: seq<byte>, x: Xfer, src: seq<byte>, count: nat)
    requires x.Xfer? && XferOk(|src|, x) && |header| == REQUEST_SIZE && count <= ToWrite(x)
    ensures OnTheWay(header, x) + NowSent(header, x, src, count) == OnTheWay(header, SendMore(x, src, count))
  {
    Mirror.WriteCbIsStep(header, x, src, count);
    var now := NowSent(header, x, src, count);
    if x.written < REQUEST_SIZE {
      assert now == header[x.written..x.written + count];
      assert x.wire == [];
    } else {
      Regroup(header, x.wire, now);
    }
  }

  lemma SendingInStep(size: nat, dst: seq<byte>, x: Xfer, tap: Tap, src: seq<byte>, count: nat)
    requires |src| == size && x.Xfer? && InStep(size, dst, x, tap) && count <= ToWrite(x)
    ensures InStep(size, dst, SendMore(x, src, count), tap.(sent := tap.sent + NowSent(tap.header, x, src, count)))
  {
    var y := SendMore(x, src, count);
    SentGrows(tap.header, x, src, count);
    Regroup(tap.base, OnTheWay(tap.header, x), NowSent(tap.header, x, src, count));
    assert y.wire[..y.applied] == x.wire[..x.applied];
  }

  lemma LandingInStep(size: nat, dst: seq<byte>, x: Xfer, tap: Tap, count: nat)
    requires x.Xfer? && InStep(size, dst, x, tap) && x.applied + count <= |x.wire|
    ensures InStep(size, Splice(dst, x.from + x.applied, x.wire[x.applied..x.applied + count]),
                   x.(applied := x.applied + count), tap)
  {
    var a, b := x.wire[..x.applied], x.wire[x.applied..x.applied + count];
    assert a + b == x.wire[..x.applied + count];
    SpliceThenSplice(tap.disk, x.from, a, b);
  }

  lemma NewXferInStep(size: nat, dst: seq<byte>, from: nat, len: nat, tap: Tap, header: seq<byte>)
    requires InStep(size, dst, NoXfer, tap) && IsPiece(size, from, from + len) && |header| == REQUEST_SIZE
    ensures InStep(size, dst, Xfer(from, len, 0, 0, [], 0, false), tap.(header := header))
  {
    var x := Xfer(from, len, 0, 0, [], 0, false);
    assert OnTheWay(header, x) == [];
    assert x.wire[..0] == [];
    assert Splice(dst, from, []) == dst;
  }

  // ----- an acknowledgement -----

  lemma PieceFits(size: nat, x: Xfer)
    requires size < WORD && x.Xfer? && XferOk(size, x) && |x.wire| == x.len
    ensures Fit(size, Transfer(x.from, x.wire)) && TransferBytes(Transfer(x.from, x.wire)) == HeaderOf(x) + x.wire
  {
    Widths();
  }

  lemma AckedSent(size: nat, dst: seq<byte>, x: Xfer, tap: Tap)
    requires x.Xfer? && InStep(size, dst, x, tap) && x.applied == x.len && x.written == REQUEST_SIZE + x.len
    ensures tap.sent == tap.base + (tap.header + x.wire) && dst == Splice(tap.disk, x.from, x.wire)
  {
    assert x.wire[..x.applied] == x.wire;
    assert tap.header[..REQUEST_SIZE] == tap.header;
  }

  /** An acknowledged transfer joins those done. */
  lemma AckedMeant(s: State, tap: Tap)
    requires s.xfer.Xfer? && s.size < WORD && OnCourse(s.size, s.dst, s.xfer, tap)
    requires s.xfer.applied == s.xfer.len && s.xfer.written == REQUEST_SIZE + s.xfer.len
    ensures OnCourse(s.size, s.dst, NoXfer, Acknowledged(s, tap))
  {
    var t := Transfer(s.xfer.from, s.xfer.wire);
    AckedSent(s.size, s.dst, s.xfer, tap);
    PieceFits(s.size, s.xfer);
    WritesMore(tap.done, t);
    AppliedMore(tap.first, tap.done, t);
    assert tap.sent + [] == tap.sent;
  }

  // ----- short of the DISCONNECT -----

  /** A whole transfer that begins like the one in progress. */
  function Completed(x: Xfer): Transfer
    requires x.Xfer? && |x.wire| <= x.len
  {
    Transfer(x.from, x.wire + seq(x.len - |x.wire|, _ => 0))
  }

  lemma PrefixOfSum(a: seq<byte>, b: seq<byte>, c: seq<byte>)
    requires b <= c
    ensures a + b <= a + c
  {
  }

  lemma CompletedFits(size: nat, x: Xfer)
    requires size < WORD && x.Xfer? && XferOk(size, x)
    ensures Fit(size, Completed(x)) && TransferBytes(Completed(x)) == HeaderOf(x) + Completed(x).data
  {
    Widths();
  }

  lemma CompletedBegins(header: seq<byte>, x: Xfer, data: seq<byte>)
    requires x.Xfer? && x.wire <= data && |header| == REQUEST_SIZE && (x.written < REQUEST_SIZE ==> x.wire == [])
    ensures OnTheWay(header, x) <= header + data
  {
    if x.written < REQUEST_SIZE {
      assert OnTheWay(header, x) == header[..x.written];
    } else {
      assert header[..REQUEST_SIZE] == header;
      PrefixOfSum(header, x.wire, data);
    }
  }

  lemma MidTransferIsPartial(size: nat, x: Xfer, tap: Tap, t: Transfer)
    requires size < WORD && Fits(size, tap.done) && Fit(size, t)
    requires tap.sent == Writes(tap.done) + OnTheWay(tap.header, x) && OnTheWay(tap.header, x) <= TransferBytes(t)
    ensures Partial(size, tap.sent)
  {
    var ts, handle := tap.done + [t], MIRROR_HANDLE;
    FitsMore(size, tap.done, t);
    WritesMore(tap.done, t);
    PrefixOfSum(Writes(tap.done), OnTheWay(tap.header, x), TransferBytes(t));
    assert tap.sent <= Writes(ts) <= MirrorStream(ts, handle);
    assert |MirrorStream(ts, handle)| == |Writes(ts)| + REQUEST_SIZE;
  }

  lemma RunningIsPartial(size: nat, dst: seq<byte>, x: Xfer, tap: Tap)
    requires size < WORD && OnCourse(size, dst, x, tap)
    ensures Partial(size, tap.sent)
  {
    if x.NoXfer? {
      var handle := MIRROR_HANDLE;
      PrefixOfSum(Writes(tap.done), [], EncodeRequest(DisconnectRequest(handle)));
      assert tap.sent <= MirrorStream(tap.done, handle);
    } else {
      CompletedFits(size, x);
      CompletedBegins(tap.header, x, Completed(x).data);
      MidTransferIsPartial(size, x, tap, Completed(x));
    }
  }

  // ----- every step -----

  lemma SameHeader(x: Xfer, y: Xfer, tap: Tap)
    requires x.Xfer? && y.Xfer? && y.from == x.from && y.len == x.len && HeaderMeant(x, tap)
    ensures HeaderMeant(y, tap)
  {
  }

  lemma CourseSends(size: nat, dst: seq<byte>, x: Xfer, tap: Tap, src: seq<byte>, count: nat)
    requires |src| == size && x.Xfer? && OnCourse(size, dst, x, tap) && count <= ToWrite(x)
    ensures OnCourse(size, dst, SendMore(x, src, count), tap.(sent := tap.sent + NowSent(tap.header, x, src, count)))
  {
    SendingInStep(size, dst, x, tap, src, count);
    SameHeader(x, SendMore(x, src, count), tap);
  }

  lemma CourseLands(size: nat, dst: seq<byte>, x: Xfer, tap: Tap, count: nat)
    requires x.Xfer? && OnCourse(size, dst, x, tap) && x.applied + count <= |x.wire|
    ensures OnCourse(size, Splice(dst, x.from + x.applied, x.wire[x.applied..x.applied + count]),
                    x.(applied := x.applied + count), tap)
  {
    LandingInStep(size, dst, x, tap, count);
    SameHeader(x, x.(applied := x.applied + count), tap);
  }

  /** How much of the reply has come is not on the wire. */
  lemma CourseReplies(size: nat, dst: seq<byte>, x: Xfer, tap: Tap, read: nat, acked: bool)
    requires x.Xfer? && OnCourse(size, dst, x, tap)
    ensures OnCourse(size, dst, x.(read := read, acked := acked), tap)
  {
    SameHeader(x, x.(read := read, acked := acked), tap);
  }

  lemma HeardIf(t: State, size: nat, dst: seq<byte>, x: Xfer, tap: Tap)
    requires t.size == size && t.dst == dst && t.xfer == x && StageOf(t.phase).Live? && OnCourse(size, dst, x, tap)
    ensures Heard(t, tap)
  {
  }

  /** The tap hears nothing new, and nothing it depends on changes. */
  ghost predicate Unheard(s: State, t: State) {
    t.size == s.size && t.dst == s.dst && t.xfer == s.xfer && StageOf(t.phase) == StageOf(s.phase)
  }

  lemma ClientsUnheard(s: State, a: Step)
    requires Enabled(s, a) && IsClientStep(a)
    ensures Unheard(s, Apply(s, a))
  {
  }

  lemma SetupUnheard(s: State, a: Step)
    requires Enabled(s, a) && (a.SetupBegin? || a.SetupDequeue? || a.EnableStream?)
    ensures Unheard(s, Apply(s, a))
  {
  }

  lemma EndingUnheard(s: State, a: Step)
    requires Enabled(s, a) && (a.DecideNext? || a.JoinClients? || a.ServerCloses? || a.DisableStream?)
    ensures Unheard(s, Apply(s, a))
  {
  }

  lemma StartHeard(s: State, dst: seq<byte>)
    requires Enabled(s, StartAttempt(dst))
    ensures Heard(Start(s, dst), Tap(dst, [], [], [], [], dst, []))
  {
  }

  lemma SetupEndHeard(s: State, tap: Tap)
    requires Enabled(s, SetupEnd) && Facts(s) && Facts(End(s)) && Heard(s, tap)
    ensures Heard(End(s), Hear(s, tap, SetupEnd))
  {
    var x := End(s).xfer;
    if x.Xfer? {
      NewXferInStep(s.size, s.dst, x.from, x.len, tap, HeaderOf(x));
    }
    RunningIsPartial(s.size, s.dst, s.xfer, tap);
  }

  lemma WriteHeard(s: State, tap: Tap, count: nat)
    requires Enabled(s, MirrorWrite(count)) && Facts(s) && Heard(s, tap)
    ensures Heard(Write(s, count), tap.(sent := tap.sent + NowSent(tap.header, s.xfer, s.src, count)))
    ensures tap.header == HeaderOf(s.xfer)
  {
    var x := SendMore(s.xfer, s.src, count);
    var more := tap.(sent := tap.sent + NowSent(tap.header, s.xfer, s.src, count));
    assert OnCourse(s.size, s.dst, s.xfer, tap);
    CourseSends(s.size, s.dst, s.xfer, tap, s.src, count);
    WritesOn(s, count);
    HeardIf(Write(s, count), s.size, s.dst, x, more);
  }

  lemma WritesOn(s: State, count: nat)
    requires Enabled(s, MirrorWrite(count))
    ensures var t := Write(s, count);
            t.size == s.size && t.dst == s.dst && t.xfer == SendMore(s.xfer, s.src, count) && StageOf(t.phase).Live?
  {
  }

  lemma LandsOn(s: State, count: nat)
    requires Enabled(s, DestApply(count))
    ensures var t, x := ApplyAtDest(s, count), s.xfer;
            && t.size == s.size && t.phase == s.phase && t.xfer == x.(applied := x.applied + count)
            && t.dst == Splice(s.dst, x.from + x.applied, x.wire[x.applied..x.applied + count])
  {
  }

  lemma ApplyHeard(s: State, tap: Tap, count: nat)
    requires Enabled(s, DestApply(count)) && StageOf(s.phase).Live? && Heard(s, tap)
    ensures Heard(ApplyAtDest(s, count), tap)
  {
    var t, x := ApplyAtDest(s, count), s.xfer;
    assert OnCourse(s.size, s.dst, x, tap);
    CourseLands(s.size, s.dst, x, tap, count);
    LandsOn(s, count);
    HeardIf(t, s.size, t.dst, t.xfer, tap);
  }

  lemma AckHeard(s: State, tap: Tap)
    requires Enabled(s, DestAck) && Facts(s) && Heard(s, tap)
    ensures Heard(Ack(s), tap)
  {
    CourseReplies(s.size, s.dst, s.xfer, tap, s.xfer.read, true);
  }

  lemma ReadPartHeard(s: State, tap: Tap, count: nat)
    requires Enabled(s, MirrorRead(count)) && s.xfer.read + count < REPLY_SIZE && Heard(s, tap)
    ensures Heard(Read(s, count), tap)
  {
    CourseReplies(s.size, s.dst, s.xfer, tap, s.xfer.read + count, s.xfer.acked);
  }

  lemma ReadWholeHeard(s: State, tap: Tap, count: nat)
    requires Enabled(s, MirrorRead(count)) && s.xfer.read + count == REPLY_SIZE && Facts(s) && Heard(s, tap)
    ensures Heard(Read(s, count), Acknowledged(s, tap))
  {
    AckedMeant(s, tap);
  }

  lemma ReadHeard(s: State, tap: Tap, count: nat)
    requires Enabled(s, MirrorRead(count)) && Facts(s) && Heard(s, tap)
    ensures Heard(Read(s, count), Hear(s, tap, MirrorRead(count)))
  {
    if s.xfer.read + count == REPLY_SIZE {
      ReadWholeHeard(s, tap, count);
    } else {
      ReadPartHeard(s, tap, count);
    }
  }

  lemma DisconnectHeard(s: State, tap: Tap, handle: seq<byte>)
    requires Enabled(s, SendDisconnect(handle)) && Facts(s) && Heard(s, tap)
    ensures Heard(Apply(s, SendDisconnect(handle)), Hear(s, tap, SendDisconnect(handle)))
  {
    assert Writes(tap.done) + [] == Writes(tap.done);
  }

  lemma FailHeard(s: State, tap: Tap)
    requires Enabled(s, Fail) && Facts(s) && Heard(s, tap)
    ensures Heard(GiveUp(s), tap)
  {
    RunningIsPartial(s.size, s.dst, s.xfer, tap);
  }

  lemma TransferHeard(s: State, tap: Tap, a: Step)
    requires Enabled(s, a) && IsTransferStep(a) && Facts(s) && Heard(s, tap)
    ensures Heard(Apply(s, a), Hear(s, tap, a))
  {
    match a
    case MirrorWrite(count) => WriteHeard(s, tap, count);
    case DestApply(count) => ApplyHeard(s, tap, count);
    case DestAck => AckHeard(s, tap);
    case MirrorRead(count) => ReadHeard(s, tap, count);
  }

  /** The steps at which an attempt starts, sets up, fails or ends. */
  predicate IsTurn(a: Step) {
    a.StartAttempt? || a.SetupEnd? || a.SendDisconnect? || a.Fail?
  }

  lemma TurnHeard(s: State, tap: Tap, a: Step)
    requires Enabled(s, a) && IsTurn(a) && Facts(s) && Facts(Apply(s, a)) && Heard(s, tap)
    ensures Heard(Apply(s, a), Hear(s, tap, a))
  {
    match a
    case StartAttempt(dst) => StartHeard(s, dst);
    case SetupEnd => SetupEndHeard(s, tap);
    case SendDisconnect(handle) => DisconnectHeard(s, tap, handle);
    case Fail => FailHeard(s, tap);
  }

  lemma QuietStep(s: State, a: Step)
    requires Enabled(s, a) && !IsTransferStep(a) && !IsTurn(a)
    ensures Unheard(s, Apply(s, a))
  {
    if IsClientStep(a) {
      ClientsUnheard(s, a);
    } else if IsSetupStep(a) {
      SetupUnheard(s, a);
    } else {
      EndingUnheard(s, a);
    }
  }

  lemma StepHeard(s: State, tap: Tap, a: Step)
    requires Enabled(s, a) && Facts(s) && Facts(Apply(s, a)) && Heard(s, tap)
    ensures Heard(Apply(s, a), Hear(s, tap, a))
  {
    if IsTransferStep(a) {
      TransferHeard(s, tap, a);
    } else if IsTurn(a) {
      TurnHeard(s, tap, a);
    } else {
      QuietStep(s, a);
    }
  }

  lemma {:induction false} RunHeard(s: State, tap: Tap, run: seq<Step>)
    requires Inv(s) && Heard(s, tap) && CanRun(s, run)
    ensures Inv(Exec(s, run)) && Heard(Exec(s, run), Tapped(s, tap, run))
    decreases |run|
  {
    if run != [] {
      StepKeepsInv(s, run[0]);
      InvFacts(s);
      InvFacts(Apply(s, run[0]));
      StepHeard(s, tap, run[0]);
      RunHeard(Apply(s, run[0]), Hear(s, tap, run[0]), run[1..]);
    }
  }

  // ----- the handover -----

  lemma InitiallySilent(s: State)
    requires Initial(s)
    ensures Inv(s) && Heard(s, Silence(s))
  {
    assert MirrorStream([], MIRROR_HANDLE) == EncodeRequest(DisconnectRequest(MIRROR_HANDLE));
    assert [] <= MirrorStream([], MIRROR_HANDLE);
    assert Partial(s.size, []);
  }

  /** The source has let go: nobody writes to it, nobody can, and the copy agrees. */
  ghost predicate LetGo(s: State, copy: seq<byte>) {
    s.phase.Done? && !s.listening && !s.allowNew && s.clients == map[] && AgreeOutside(s.src, copy, s.torn)
  }

  /**
   A listener with file and map `d`, fed with the first `k` bytes of what was sent: it gains control
   exactly if the source is done and that was all; and if a clear bit in its map means a block of
   zeroes, it then holds an agreeing copy.
   */
  ghost predicate FedListener(s: State, tap: Tap, d: MapServer.Disk, k: nat)
    requires k <= |tap.sent|
  {
    var l := MapServer.Serve(d, tap.sent[..k]);
    && !l.end.BadMagic?
    && (l.end.Disconnected? <==> s.phase.Done? && k == |tap.sent|)
    && (l.end.Disconnected? && MapServer.Promise(d) ==> LetGo(s, l.disk.bytes) && MapServer.Promise(l.disk))
    && MapServer.Tame(|d.bytes|, d.build, tap.sent[..k])
  }

  /** The same of the naive server. */
  ghost predicate Fed(s: State, tap: Tap, k: nat)
    requires k <= |tap.sent|
  {
    var l := NaiveDisk.Run(tap.first, tap.sent[..k]);
    && !l.end.BadMagic?
    && (l.end.Disconnected? <==> s.phase.Done? && k == |tap.sent|)
    && (l.end.Disconnected? ==> LetGo(s, l.disk))
    && forall build :: MapServer.Tame(|tap.first|, build, tap.sent[..k])
  }

  lemma PartialNeverGains(s: State, tap: Tap, k: nat)
    requires |tap.first| == s.size < WORD && Partial(s.size, tap.sent) && k <= |tap.sent| && !s.phase.Done?
    ensures Fed(s, tap, k)
  {
    var ts, handle :| |handle| == 8 && Fits(s.size, ts) && tap.sent <= MirrorStream(ts, handle) && |tap.sent| < |MirrorStream(ts, handle)|;
    ListenerControl(tap.first, ts, handle, k);
    assert tap.sent[..k] == MirrorStream(ts, handle)[..k];
  }

  lemma DoneGains(s: State, tap: Tap, k: nat)
    requires Inv(s) && s.phase.Done? && Heard(s, tap) && k <= |tap.sent|
    ensures Fed(s, tap, k)
  {
    FinishedAgrees(s);
    ListenerControl(tap.first, tap.done, tap.handle, k);
  }

  lemma FedAnyhow(s: State, tap: Tap, k: nat)
    requires Inv(s) && Heard(s, tap) && k <= |tap.sent|
    ensures Fed(s, tap, k)
  {
    InvFacts(s);
    if s.phase.Done? {
      DoneGains(s, tap, k);
    } else {
      if !s.phase.Resting? && !s.phase.Failing? {
        RunningIsPartial(s.size, s.dst, s.xfer, tap);
      }
      PartialNeverGains(s, tap, k);
    }
  }

  lemma FedWithMap(s: State, tap: Tap, d: MapServer.Disk, k: nat)
    requires k <= |tap.sent| && Fed(s, tap, k) && d.bytes == tap.first
    ensures FedListener(s, tap, d, k)
  {
    MapServer.EndsAlike(d, tap.first, tap.sent[..k]);
    if MapServer.Promise(d) {
      MapServer.ServesNaively(d, tap.sent[..k]);
    }
  }

  /**
   Handover to a listener: in every run, a listener fed with any prefix of the bytes the latest
   attempt has sent gains control if and only if the source is done and all of them arrived;
   and then the source has closed, joined every client, refuses new ones, and, the listener's map
   having kept its promise when the attempt began, the listener's disk agrees with the source's
   outside the torn bytes.
   */
  lemma ListenerHandover(s: State, run: seq<Step>, d: MapServer.Disk, k: nat)
    requires Initial(s) && CanRun(s, run) && k <= |Tapped(s, Silence(s), run).sent|
    requires d.bytes == Tapped(s, Silence(s), run).first
    ensures FedListener(Exec(s, run), Tapped(s, Silence(s), run), d, k)
  {
    InitiallySilent(s);
    RunHeard(s, Silence(s), run);
    FedAnyhow(Exec(s, run), Tapped(s, Silence(s), run), k);
    FedWithMap(Exec(s, run), Tapped(s, Silence(s), run), d, k);
  }

  /**
   The same over a listener that has served before, earlier attempts included: its map keeps its
   promise if it did at first and no connection since has done it harm.
   */
  lemma HandoverAfter(first: MapServer.Disk, inputs: seq<seq<byte>>, d: MapServer.Disk, s: State, run: seq<Step>)
    requires MapServer.Promise(first) && MapServer.Survives(first, inputs, d)
    requires Initial(s) && CanRun(s, run) && d.bytes == Tapped(s, Silence(s), run).first && Exec(s, run).phase.Done?
    ensures LetGo(Exec(s, run), MapServer.Serve(d, Tapped(s, Silence(s), run).sent).disk.bytes)
  {
    var tap := Tapped(s, Silence(s), run);
    MapServer.SurvivesKeeps(first, inputs, d);
    ListenerHandover(s, run, d, |tap.sent|);
    assert tap.sent[..|tap.sent|] == tap.sent;
  }

  /**
   The listener's own code: client_serve on whatever arrived, then server_control_arrived.  It
   takes control exactly when the whole stream of a finished migration arrived, and then, its map
   having kept its promise until then, its mapped file is the agreeing copy.
   */
  method Listen(listener: Sessions.Client, server: Serve.Server, build: MapServer.Build,
                ghost s: State, ghost run: seq<Step>, ghost k: nat)
      returns (now: MapServer.Build)
    requires Initial(s) && CanRun(s, run) && k <= |Tapped(s, Silence(s), run).sent|
    requires listener.Valid() && !listener.disconnect && listener.Expects(build) && !server.success
    requires listener.image.mapped[..] == Tapped(s, Silence(s), run).first
    requires listener.sock.incoming == Tapped(s, Silence(s), run).sent[..k]
    modifies listener`disconnect, listener`mapBuilt
    modifies listener.image`copy, listener.image.mapped, listener.image.alloc`marked, listener.image.alloc.bits
    modifies listener.image.alloc.stream, listener.image.alloc.stream.entries
    modifies listener.sock`incoming, listener.sock`sent, server`success, server`closeSignalled
    ensures listener.Valid() && listener.Expects(now)
    ensures server.success <==> Exec(s, run).phase.Done? && k == |Tapped(s, Silence(s), run).sent|
    ensures server.success && MapServer.Promise(old(listener.Disk(build))) ==>
              LetGo(Exec(s, run), listener.image.mapped[..]) && MapServer.Promise(listener.Disk(now))
    ensures MapServer.Leaves(old(listener.Disk(build)), old(listener.sock.incoming), listener.Disk(now))
    ensures server.closeSignalled == (old(server.closeSignalled) || server.success)
  {
    ListenerHandover(s, run, listener.Disk(build), k);
    var control;
    control, now := listener.Serve(build);
    if control {
      server.ControlArrived();
    }
  }
}
