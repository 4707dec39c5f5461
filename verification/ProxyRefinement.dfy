/**
 Whole runs of the proxy, measured against NaiveDisk.Run on the bytes the client sent.
 */
module ProxyRefinement {
  import opened Bytes
  import opened Wire
  import opened NaiveDisk
  import opened ProxyCode
  import opened ProxySystem
  import opened ProxySafety
  import opened ProxyUpstream

  /** After the answers `out` to `stream`, a server that began with `first` goes on as one that begins with `disk`. */
  ghost predicate Continues(first: seq<byte>, stream: seq<byte>, disk: seq<byte>, out: seq<byte>, more: seq<byte>) {
    var n := Run(disk, more);
    Run(first, stream + more) == n.(out := out + n.out)
  }

  /** Beside the requests answered so far runs a reliable disk. */
  ghost predicate ServedOk(w: World) {
    forall more: seq<byte> :: Continues(w.first, w.stream, w.refDisk, w.refOut, more)
  }

  lemma OnWireGoes(size: nat, x: Exchange, more: seq<byte>)
    requires Accepted(x)
    ensures var input := OnWire(x) + more;
            && Goes(size, input) && DecodeRequest(input[..REQUEST_SIZE]) == x.r
            && input[REQUEST_SIZE..][..PayloadLength(x.r)] == x.payload
            && input[REQUEST_SIZE..][PayloadLength(x.r)..] == more
  {
    RequestRoundTrip(x.r);
    var input := OnWire(x) + more;
    assert input[..REQUEST_SIZE] == EncodeRequest(x.r);
    assert input[REQUEST_SIZE..] == x.payload + more;
  }

  lemma RunOnWire(disk: seq<byte>, x: Exchange, more: seq<byte>)
    requires Accepted(x)
    ensures var next := Run(DiskAfter(disk, x.r, x.payload), more);
            Run(disk, OnWire(x) + more) == next.(out := ReplyBytes(disk, x.r) + next.out)
  {
    OnWireGoes(|disk|, x, more);
    RunGoes(disk, OnWire(x) + more, x.r);
  }

  lemma ContinuesOn(first: seq<byte>, stream: seq<byte>, disk: seq<byte>, out: seq<byte>, x: Exchange, more: seq<byte>)
    requires Accepted(x) && Continues(first, stream, disk, out, OnWire(x) + more)
    ensures Continues(first, stream + OnWire(x), DiskAfter(disk, x.r, x.payload), out + ReplyBytes(disk, x.r), more)
  {
    RunOnWire(disk, x, more);
    Regroup(stream, OnWire(x), more);
    Regroup(out, ReplyBytes(disk, x.r), Run(DiskAfter(disk, x.r, x.payload), more).out);
  }

  lemma ContinuesFromStart(disk: seq<byte>, more: seq<byte>)
    ensures Continues(disk, [], disk, [], more)
  {
    assert [] + more == more;
    var n := Run(disk, more);
    assert [] + n.out == n.out;
  }

  /** Taking one more request into account keeps the reference in step. */
  lemma AccountServed(w: World)
    requires ServedOk(w) && Accepted(w.cur) && w.curWire == OnWire(w.cur)
    ensures ServedOk(Account(w))
  {
    var v := Account(w);
    forall more: seq<byte> ensures Continues(v.first, v.stream, v.refDisk, v.refOut, more) {
      assert Continues(w.first, w.stream, w.refDisk, w.refOut, w.curWire + more);
      ContinuesOn(w.first, w.stream, w.refDisk, w.refOut, w.cur, more);
    }
  }

  lemma NothingServed(w: World)
    requires w.first == w.refDisk && w.stream == w.refOut == []
    ensures ServedOk(w)
  {
    forall more: seq<byte> ensures Continues(w.first, w.stream, w.refDisk, w.refOut, more) {
      ContinuesFromStart(w.first, more);
    }
  }

  ghost predicate Full(s: Sys) {
    Inv(s) && WireOk(s) && HelloOk(s) && ServedOk(s.w)
  }

  // ----- one step -----

  lemma InvStepDown(s: Sys, a: Step)
    requires Inv(s) && WireOk(s) && HelloOk(s) && Enabled(s, a)
    requires a.DownRead? || a.DownReadFails? || a.DownWrite? || a.DownWriteFails? || a.NewSession?
    ensures Inv(Apply(s, a))
  {
    match a {
      case DownRead(data) => DownReadKeeps(s, data);
      case DownReadFails => DownReadFailsKeeps(s);
      case DownWrite(count) => DownWriteKeeps(s, count);
      case DownWriteFails => DownWriteFailsKeeps(s);
      case NewSession => NewSessionKeeps(s);
    }
  }

  lemma InvStepUp(s: Sys, a: Step)
    requires Inv(s) && WireOk(s) && HelloOk(s) && Enabled(s, a) && (a.ConnectSucceeds? || a.InitRead? || a.UpWrite?)
    ensures Inv(Apply(s, a))
  {
    match a {
      case ConnectSucceeds => ConnectKeeps(s);
      case InitRead(count) => InitReadKeeps(s, count);
      case UpWrite(count) => UpWriteKeeps(s, count);
    }
  }

  lemma UpReadInv(s: Sys, count: nat)
    requires Inv(s) && WireOk(s) && Enabled(s, UpRead(count))
    ensures Inv(AfterUpRead(s, count))
  {
    UpReadKeeps(s, count);
  }

  lemma ServerInv(s: Sys, a: Step)
    requires Inv(s) && WireOk(s) && Enabled(s, a) && (a.ServerStores? || a.ServerAnswers?)
    ensures Inv(Apply(s, a))
  {
    match a {
      case ServerStores(count) => ServerStoresKeeps(s, count);
      case ServerAnswers => ServerAnswersKeeps(s);
    }
  }

  lemma InvStep(s: Sys, a: Step)
    requires Inv(s) && WireOk(s) && HelloOk(s) && Enabled(s, a)
    ensures Inv(Apply(s, a))
  {
    if a.DownRead? || a.DownReadFails? || a.DownWrite? || a.DownWriteFails? || a.NewSession? {
      InvStepDown(s, a);
    } else if a.ConnectSucceeds? || a.InitRead? || a.UpWrite? {
      InvStepUp(s, a);
    } else if a.UpRead? {
      UpReadInv(s, a.count);
    } else if a.ServerStores? || a.ServerAnswers? {
      ServerInv(s, a);
    } else {
      LossKeeps(s, a);
    }
  }

  /** Only reading from the client or from upstream changes the request in hand. */
  lemma SameRequest(s: Sys, a: Step)
    requires Enabled(s, a) && !a.DownRead? && !a.UpRead?
    ensures var t := Apply(s, a);
            && t.w.cur == s.w.cur && t.w.curWire == s.w.curWire && t.w.queued == s.w.queued
            && t.p.isPrefetchReq == s.p.isPrefetchReq
            && (InHand(t.p) ==> InHand(s.p))
            && (IsUpstreamState(t.p.state) ==> IsUpstreamState(s.p.state))
  {
  }

  lemma SameWire(s: Sys, t: Sys)
    requires WireOk(s) && t.w.cur == s.w.cur && t.w.curWire == s.w.curWire && t.w.queued == s.w.queued
    requires t.p.isPrefetchReq == s.p.isPrefetchReq && (InHand(t.p) ==> InHand(s.p))
    requires IsUpstreamState(t.p.state) ==> IsUpstreamState(s.p.state)
    ensures WireOk(t)
  {
  }

  lemma OtherWire(s: Sys, a: Step)
    requires WireOk(s) && Enabled(s, a) && !a.DownRead? && !a.UpRead?
    ensures WireOk(Apply(s, a))
  {
    SameRequest(s, a);
    SameWire(s, Apply(s, a));
  }

  lemma WireStep(s: Sys, a: Step)
    requires Inv(s) && WireOk(s) && Enabled(s, a)
    ensures WireOk(Apply(s, a))
  {
    if a.DownRead? {
      DownReadWire(s, a.data);
    } else if a.UpRead? {
      UpReadKeeps(s, a.count);
    } else {
      OtherWire(s, a);
    }
  }

  ghost predicate HelloKept(s: Sys, t: Sys) {
    t.w.hello == s.w.hello && |t.w.disk| == |s.w.disk| && t.p.upstreamFlags == s.p.upstreamFlags
  }

  lemma PrefetchFlags(p: Proxy)
    requires p.state.WriteToUpstream? && p.prefetch.Prefetch? && PrefetchReady(p)
    ensures PrefetchForRequest(p).upstreamFlags == p.upstreamFlags
  {
  }

  lemma DownReadHello(s: Sys, data: seq<byte>)
    requires Enabled(s, DownRead(data))
    ensures HelloKept(s, AfterDownRead(s, data))
  {
    var q := ReadDownstream(s.p, Got(data));
    assert q.upstreamFlags == s.p.upstreamFlags;
    if q.state.WriteToUpstream? && q.prefetch.Prefetch? {
      PrefetchFlags(q);
    }
  }

  lemma UpReadHello(s: Sys, count: nat)
    requires Enabled(s, UpRead(count))
    ensures HelloKept(s, AfterUpRead(s, count))
  {
  }

  lemma SameHello(s: Sys, a: Step)
    requires Enabled(s, a) && !a.DownRead? && !a.UpRead? && !a.InitRead?
    ensures HelloKept(s, Apply(s, a))
  {
  }

  lemma HelloStep(s: Sys, a: Step)
    requires Inv(s) && HelloOk(s) && Enabled(s, a)
    ensures HelloOk(Apply(s, a))
  {
    match a {
      case DownRead(data) => DownReadHello(s, data);
      case UpRead(count) => UpReadHello(s, count);
      case InitRead(count) => InitReadKeeps(s, count);
      case _ => SameHello(s, a);
    }
  }

  lemma ServedStep(s: Sys, a: Step)
    requires ServedOk(s.w) && Enabled(s, a)
    requires a.DownWrite? && s.p.helloSent ==> Accepted(s.w.cur) && s.w.curWire == OnWire(s.w.cur)
    ensures ServedOk(Apply(s, a).w)
  {
    match a {
      case NewSession => NothingServed(AfterNewSession(s).w);
      case DownWrite(_) =>
        var v := s.w.(given := AfterDownWrite(s, a.count).w.given);
        assert ServedOk(v);
        if s.p.helloSent {
          AccountServed(v);
        }
      case _ =>
    }
  }

  lemma StepKeeps(s: Sys, a: Step)
    requires Full(s) && Enabled(s, a)
    ensures Full(Apply(s, a))
  {
    InvStep(s, a);
    WireStep(s, a);
    HelloStep(s, a);
    ServedStep(s, a);
  }

  lemma {:induction false} RunKeeps(s: Sys, run: seq<Step>)
    requires Full(s) && CanRun(s, run)
    ensures Full(Exec(s, run))
    decreases |run|
  {
    if run != [] {
      StepKeeps(s, run[0]);
      RunKeeps(Apply(s, run[0]), run[1..]);
    }
  }

  // ----- what the client sees -----

  lemma ServedSoFar(w: World, part: seq<byte>)
    requires ServedOk(w) && w.taken == w.stream + part
    ensures Run(w.first, w.taken).disk == Run(w.refDisk, part).disk
    ensures Run(w.first, w.taken).out == w.refOut + Run(w.refDisk, part).out
  {
    assert Continues(w.first, w.stream, w.refDisk, w.refOut, part);
  }

  /** The reference, when all that was taken has been answered. */
  lemma ServedStream(w: World)
    requires ServedOk(w)
    ensures Run(w.first, w.stream).disk == w.refDisk && Run(w.first, w.stream).out == w.refOut
  {
    assert Continues(w.first, w.stream, w.refDisk, w.refOut, []);
    assert w.stream + [] == w.stream;
    assert w.refOut + [] == w.refOut;
  }

  /** The reference, when one more request is in hand. */
  lemma ServedInHand(w: World)
    requires ServedOk(w) && Accepted(w.cur) && w.curWire == OnWire(w.cur) && w.taken == w.stream + w.curWire
    ensures Run(w.first, w.taken).disk == DiskAfter(w.refDisk, w.cur.r, w.cur.payload)
    ensures Run(w.first, w.taken).out == w.refOut + ReplyBytes(w.refDisk, w.cur.r)
  {
    ServedSoFar(w, w.curWire);
    RunOnWire(w.refDisk, w.cur, []);
    assert w.curWire + [] == w.curWire;
    assert ReplyBytes(w.refDisk, w.cur.r) + [] == ReplyBytes(w.refDisk, w.cur.r);
  }

  /** Every byte of the disk is as before the request in hand, or as after it. */
  ghost predicate Between(was: seq<byte>, now: seq<byte>, will: seq<byte>) {
    |was| == |now| == |will| && forall i :: 0 <= i < |now| ==> now[i] == was[i] || now[i] == will[i]
  }

  lemma MidIsBetween(was: seq<byte>, now: seq<byte>, x: Exchange)
    requires IsExchange(x) && DiskMid(was, now, x)
    ensures Between(was, now, DiskAfter(was, x.r, x.payload))
  {
  }

  /** Refinement: what a reliable server given the same bytes would have done. */
  ghost predicate Refines(s: Sys) {
    var w := s.w;
    var ref := Run(w.first, w.taken);
    && w.given <= w.hello + ref.out
    && (s.p.state.ReadFromDownstream? ==> w.given == w.hello + ref.out)
    && if IsUpstreamState(s.p.state)
       then w.given == w.hello + Run(w.first, w.stream).out && Between(Run(w.first, w.stream).disk, w.disk, ref.disk)
       else w.disk == ref.disk
  }

  lemma PendingRefines(s: Sys)
    requires Full(s) && IsUpstreamState(s.p.state)
    ensures Refines(s)
  {
    ServedStream(s.w);
    ServedInHand(s.w);
    MidIsBetween(s.w.refDisk, s.w.disk, s.w.cur);
    Regroup(s.w.hello, s.w.refOut, ReplyBytes(s.w.refDisk, s.w.cur.r));
  }

  lemma ListeningRefines(s: Sys)
    requires Full(s) && s.p.state.ReadFromDownstream?
    ensures Refines(s)
  {
    PartIsHarmless(s.p);
    ServedSoFar(s.w, s.p.req.Done());
    assert s.w.refOut + [] == s.w.refOut;
  }

  lemma SendingRefines(s: Sys)
    requires Full(s) && s.p.state.WriteToDownstream?
    ensures Refines(s)
  {
    var w := s.w;
    assert s.p.rsp.Done() <= s.p.rsp.All();
    if s.p.helloSent {
      ServedInHand(w);
      PrefixAfter(w.hello + w.refOut, s.p.rsp.Done(), s.p.rsp.All());
      Regroup(w.hello, w.refOut, ReplyBytes(w.refDisk, w.cur.r));
    } else {
      ServedSoFar(w, []);
      assert w.hello <= w.hello + Run(w.first, w.taken).out;
    }
  }

  /** The session ended between two requests. */
  lemma EndedBetween(w: World)
    requires ServedOk(w) && EndedWhole(w)
    ensures w.given <= w.hello + Run(w.first, w.taken).out && w.disk == Run(w.first, w.taken).disk
  {
    var part := w.taken[|w.stream|..];
    assert w.taken == w.stream + part;
    ServedSoFar(w, part);
    PrefixAfter(w.hello, w.refOut, w.refOut + Run(w.refDisk, part).out);
  }

  /** It ended with the last request answered in part. */
  lemma EndedInHand(w: World)
    requires ServedOk(w) && EndedPart(w)
    ensures w.given <= w.hello + Run(w.first, w.taken).out && w.disk == Run(w.first, w.taken).disk
  {
    ServedInHand(w);
    Regroup(w.hello, w.refOut, ReplyBytes(w.refDisk, w.cur.r));
  }

  lemma ExitRefines(s: Sys)
    requires Full(s) && s.p.state.Exit?
    ensures Refines(s)
  {
    if EndedWhole(s.w) {
      EndedBetween(s.w);
    } else {
      EndedInHand(s.w);
    }
  }

  lemma FullRefines(s: Sys)
    requires Full(s)
    ensures Refines(s)
  {
    if IsUpstreamState(s.p.state) {
      PendingRefines(s);
    } else {
      match s.p.state {
        case Exit => ExitRefines(s);
        case ReadFromDownstream => ListeningRefines(s);
        case WriteToDownstream => SendingRefines(s);
      }
    }
  }

  // ----- select() failing -----

  /** The loop is left from whatever state it is in (src/proxy/proxy.c:808-811). */
  function SelectFails(s: Sys): Sys {
    s.(p := s.p.(state := Exit))
  }

  /** In the two downstream states that is the end of a session like any other. */
  lemma SelectFailsDown(s: Sys)
    requires Full(s) && (s.p.state.ReadFromDownstream? || s.p.state.WriteToDownstream?)
    ensures Full(SelectFails(s)) && Refines(SelectFails(s))
  {
    var a := if s.p.state.ReadFromDownstream? then DownReadFails else DownWriteFails;
    StepKeeps(s, a);
    FullRefines(SelectFails(s));
  }

  // ----- main results -----

  /** The proxy after its first connection (src/proxy/proxy.c, do_proxy), before its first client. */
  ghost predicate Start(s: Sys) {
    var p, w := s.p, s.w;
    && p.state.Exit? && !p.isPrefetchReq
    && BufOk(p.init, INIT_SIZE) && BufOk(p.req, REQ_CAPACITY) && BufOk(p.rsp, RSP_CAPACITY)
    && HelloOk(s) && p.upstreamSize == |w.disk| && w.conn == Conn([], [])
    && (p.prefetch.Prefetch? ==> !p.prefetch.isFull && |p.prefetch.buffer| == p.prefetch.size <= NBD_MAX_SIZE / 2)
    && w.first == w.refDisk == w.disk && w.taken == w.given == w.stream == w.refOut == []
  }

  lemma StartIsFull(s: Sys)
    requires Start(s)
    ensures Full(s)
  {
    Widths();
    NothingServed(s.w);
    NothingIsHarmless();
    assert s.w.taken[|s.w.stream|..] == [];
  }

  ghost predicate Reachable(s0: Sys, run: seq<Step>, s: Sys) {
    Start(s0) && CanRun(s0, run) && s == Exec(s0, run)
  }

  lemma ReachableFull(s0: Sys, run: seq<Step>, s: Sys)
    requires Reachable(s0, run, s)
    ensures Full(s)
  {
    StartIsFull(s0);
    RunKeeps(s0, run);
  }

  /**
   Whatever drops, time-outs, partial reads and partial writes a run holds, and however much of a
   write the server had stored before a drop, the client has been given a prefix of the replies
   of one reliable disk fed with the same bytes; exactly those replies when the proxy waits for
   the next request; and the disk is that disk, except that the request in hand may be half done.
   */
  lemma ProxyRefinement(s0: Sys, run: seq<Step>, s: Sys)
    requires Reachable(s0, run, s)
    ensures Refines(s)
  {
    ReachableFull(s0, run, s);
    FullRefines(s);
  }
}
