/**
 The bandwidth limit binds exactly while the ring is at most half full at each check: a client
 that keeps it fuller makes any mirror overrun any limit.
 */
module Overrun {
  import opened EventStream
  import opened Schedule
  import opened Wire
  import opened MigrationSteps
  import opened Migration
  import opened Pacing

  // ----- runs with a clock -----

  ghost predicate Gets(limit: nat, o: Timed, t: Timed) {
    exists moves :: CanGo(limit, o, moves) && Gone(limit, o, moves) == t
  }

  lemma GetsNowhere(limit: nat, o: Timed)
    ensures Gets(limit, o, o)
  {
    assert CanGo(limit, o, []) && Gone(limit, o, []) == o;
  }

  lemma {:induction false} OneMoveMore(limit: nat, o: Timed, moves: seq<Move>, m: Move)
    requires CanGo(limit, o, moves) && CanMove(Gone(limit, o, moves), m)
    ensures CanGo(limit, o, moves + [m]) && Gone(limit, o, moves + [m]) == Moved(limit, Gone(limit, o, moves), m)
    decreases |moves|
  {
    var more := moves + [m];
    if moves == [] {
      assert more[1..] == [];
    } else {
      OneMoveMore(limit, Moved(limit, o, moves[0]), moves[1..], m);
      assert more[0] == moves[0] && more[1..] == moves[1..] + [m];
    }
  }

  lemma GoesOn(limit: nat, o: Timed, t: Timed, m: Move, u: Timed)
    requires Gets(limit, o, t) && CanMove(t, m) && u == Moved(limit, t, m)
    ensures Gets(limit, o, u)
  {
    var moves :| CanGo(limit, o, moves) && Gone(limit, o, moves) == t;
    OneMoveMore(limit, o, moves, m);
  }

  /** A step that has nothing to do with the pace. */
  lemma Steps(limit: nat, o: Timed, t: Timed, a: Step, s: State)
    requires Gets(limit, o, t) && !t.p.waiting && Enabled(t.s, a) && s == Apply(t.s, a)
    requires !a.StartAttempt? && !Ends(t.s, a) && !a.DecideNext? && !a.JoinClients?
    ensures Gets(limit, o, t.(s := s))
  {
    GoesOn(limit, o, t, Act(a), t.(s := s));
  }

  // ----- the mirror and a busy client -----

  /** An image of one chunk, and a write of all of it. */
  const SIZE: nat := LONGEST_WRITE
  const CHANGE := Entry(Set, 0, SIZE)

  /** A new transfer of the whole image. */
  const WHOLE := Xfer(0, SIZE, 0, 0, [], 0, false)

  /** The scan is over, and client 7 is there. */
  ghost predicate Busy(s: State) {
    && s.size == SIZE == |s.src| == |s.dst| && s.offset == SIZE && s.streaming && !s.clear && !s.clientsClosed
    && 7 in s.clients && s.clients[7] == Idle
  }

  ghost predicate Fresh(t: Timed) {
    Busy(t.s) && !t.p.waiting && t.s.phase == Sending && t.s.xfer == WHOLE
  }

  /** Client 7 writes the whole image. */
  lemma Writes(limit: nat, o: Timed, t: Timed) returns (u: Timed)
    requires Gets(limit, o, t) && Busy(t.s) && !t.p.waiting && |t.s.ring| < STREAM_SIZE
    ensures Gets(limit, o, u) && Busy(u.s) && u == t.(s := u.s)
    ensures u.s.ring == t.s.ring + [CHANGE] && u.s.phase == t.s.phase && u.s.xfer == t.s.xfer
  {
    var s, data := t.s, seq(SIZE, _ => 0);
    var s1 := s.(clients := s.clients[7 := Storing(0, SIZE, 0)]);
    Steps(limit, o, t, BeginPiece(7, 0, SIZE), s1);
    var s2 := Store(s1, 7, data);
    Steps(limit, o, t.(s := s1), StoreBytes(7, data), s2);
    u := t.(s := Post(s2, 7));
    Steps(limit, o, t.(s := s2), PostEvent(7), u.s);
  }

  ghost predicate Changes(ring: seq<Entry>) {
    forall i :: 0 <= i < |ring| ==> ring[i] == CHANGE
  }

  /** It does so until the ring holds `n` entries. */
  lemma {:induction false} WritesUntil(limit: nat, o: Timed, t: Timed, n: nat) returns (u: Timed)
    requires Gets(limit, o, t) && Busy(t.s) && !t.p.waiting && 0 < |t.s.ring| <= n <= STREAM_SIZE && Changes(t.s.ring[1..])
    ensures Gets(limit, o, u) && Busy(u.s) && u == t.(s := u.s)
    ensures |u.s.ring| == n && u.s.ring[0] == t.s.ring[0] && Changes(u.s.ring[1..])
    ensures u.s.phase == t.s.phase && u.s.xfer == t.s.xfer
    decreases n - |t.s.ring|
  {
    if |t.s.ring| == n {
      u := t;
    } else {
      var v := Writes(limit, o, t);
      assert v.s.ring[1..] == t.s.ring[1..] + [CHANGE];
      u := WritesUntil(limit, o, v, n);
    }
  }

  lemma SendsHeader(limit: nat, o: Timed, t: Timed) returns (u: Timed)
    requires Gets(limit, o, t) && Fresh(t)
    ensures Gets(limit, o, u) && u == t.(s := t.s.(xfer := WHOLE.(written := REQUEST_SIZE)))
  {
    u := t.(s := Write(t.s, REQUEST_SIZE));
    Steps(limit, o, t, MirrorWrite(REQUEST_SIZE), u.s);
  }

  lemma SendsPayload(limit: nat, o: Timed, t: Timed) returns (u: Timed)
    requires Gets(limit, o, t) && Busy(t.s) && !t.p.waiting
    requires t.s.phase == Sending && t.s.xfer == WHOLE.(written := REQUEST_SIZE)
    ensures Gets(limit, o, u) && u.s.xfer.Xfer? && |u.s.xfer.wire| == SIZE
    ensures u == t.(s := t.s.(phase := Reading, xfer := WHOLE.(written := REQUEST_SIZE + SIZE, wire := u.s.xfer.wire)))
  {
    u := t.(s := Write(t.s, SIZE));
    Steps(limit, o, t, MirrorWrite(SIZE), u.s);
  }

  lemma Arrives(limit: nat, o: Timed, t: Timed) returns (u: Timed)
    requires Gets(limit, o, t) && Busy(t.s) && !t.p.waiting && t.s.phase == Reading
    requires t.s.xfer.Xfer? && |t.s.xfer.wire| == SIZE && t.s.xfer == WHOLE.(written := REQUEST_SIZE + SIZE, wire := t.s.xfer.wire)
    ensures Gets(limit, o, u) && |u.s.dst| == SIZE
    ensures u == t.(s := t.s.(dst := u.s.dst, xfer := t.s.xfer.(applied := SIZE, acked := true)))
  {
    var s1 := ApplyAtDest(t.s, SIZE);
    Steps(limit, o, t, DestApply(SIZE), s1);
    u := t.(s := Ack(s1));
    Steps(limit, o, t.(s := s1), DestAck, u.s);
  }

  /** A transfer is acknowledged. */
  ghost predicate Acked(t: Timed) {
    && Busy(t.s) && !t.p.waiting && t.s.phase == Reading && t.s.xfer.Xfer? && t.s.xfer.acked
    && t.s.xfer.len == SIZE && t.s.xfer.read == 0
  }

  lemma Transfers(limit: nat, o: Timed, t: Timed) returns (u: Timed)
    requires Gets(limit, o, t) && Fresh(t)
    ensures Gets(limit, o, u) && Acked(u) && u == t.(s := u.s) && u.s.ring == t.s.ring
  {
    var v := SendsHeader(limit, o, t);
    var w := SendsPayload(limit, o, v);
    u := Arrives(limit, o, w);
  }

  /** The reply is read, and the bytes are accounted for. */
  lemma Accounts(limit: nat, o: Timed, t: Timed) returns (u: Timed)
    requires Gets(limit, o, t) && Acked(t)
    ensures Gets(limit, o, u) && Busy(u.s) && u.s.ring == t.s.ring
    ensures u == t.(s := u.s, p := t.p.(allDirty := t.p.allDirty + SIZE), longest := Max(t.longest, SIZE))
    ensures u.s.phase == Setup(Later, false, NO_ENTRY) && u.s.xfer == NoXfer
  {
    var s := Read(t.s, REPLY_SIZE);
    u := t.(s := s, p := Counted(t.p, SIZE, false), longest := Max(t.longest, SIZE));
    GoesOn(limit, o, t, Act(MirrorRead(REPLY_SIZE)), u);
  }

  /** The first entry, which turned the stream on, is passed over. */
  lemma SkipsFirst(limit: nat, o: Timed, t: Timed) returns (u: Timed)
    requires Gets(limit, o, t) && Busy(t.s) && !t.p.waiting && t.s.phase == Setup(Later, false, NO_ENTRY)
    requires |t.s.ring| > 0 && t.s.ring[0].event == On
    ensures Gets(limit, o, u) && Busy(u.s) && u == t.(s := u.s)
    ensures u.s.ring == t.s.ring[1..] && u.s.phase == Setup(Later, true, t.s.ring[0]) && u.s.xfer == t.s.xfer
  {
    var s1 := Begin(t.s);
    Steps(limit, o, t, SetupBegin, s1);
    u := t.(s := Dequeue(s1, |s1.ring|));
    Steps(limit, o, t.(s := s1), SetupDequeue(|s1.ring|), u.s);
  }

  lemma Starts(limit: nat, o: Timed, t: Timed) returns (u: Timed)
    requires Gets(limit, o, t) && Busy(t.s) && !t.p.waiting && t.s.phase == Setup(Later, false, NO_ENTRY)
    ensures Gets(limit, o, u) && Busy(u.s) && u == t.(s := u.s)
    ensures u.s.ring == t.s.ring && u.s.phase == Setup(Later, true, NO_ENTRY) && u.s.xfer == t.s.xfer
  {
    u := t.(s := Begin(t.s));
    Steps(limit, o, t, SetupBegin, u.s);
  }

  /** A queued change becomes the next transfer. */
  lemma Takes(limit: nat, o: Timed, t: Timed) returns (u: Timed)
    requires Gets(limit, o, t) && Busy(t.s) && !t.p.waiting && t.s.phase.Setup? && t.s.phase.round == Later && t.s.phase.begun
    requires t.s.phase.last.event != Set && |t.s.ring| > 0 && t.s.ring[0] == CHANGE
    ensures Gets(limit, o, u) && Busy(u.s) && u == t.(s := u.s)
    ensures u.s.ring == t.s.ring[1..] && u.s.phase == Decide(true) && u.s.xfer == WHOLE
  {
    var s1 := Dequeue(t.s, |t.s.ring|);
    Steps(limit, o, t, SetupDequeue(|t.s.ring|), s1);
    u := t.(s := End(s1));
    Steps(limit, o, t.(s := s1), SetupEnd, u.s);
  }

  // ----- the estimate -----

  lemma {:induction false} ChangedBytes(ring: seq<Entry>)
    requires Changes(ring)
    ensures QueuedBytes(ring, Set) == |ring| * SIZE
  {
    if ring != [] {
      ChangedBytes(ring[1..]);
      assert ring[0] == CHANGE;
    }
  }

  lemma FarFromDone(a: nat, b: nat)
    requires CONVERGE_SECS * (b + 1) <= a
    ensures a / (b + 1) >= CONVERGE_SECS
  {
    if a / (b + 1) < CONVERGE_SECS {
      QuotientBound(a, b + 1, CONVERGE_SECS - 1);
    }
  }

  /** With `sent` images accounted for in the first second, a ring this full is far from drained. */
  lemma NotConverging(s: State, p: Pace, sent: nat)
    requires Busy(s) && Changes(s.ring) && |s.ring| == FULLER && p.allDirty == SIZE * sent && p.ms == 0
    requires sent < FULLER / CONVERGE_SECS
    ensures Eta(s, p) >= CONVERGE_SECS
  {
    ChangedBytes(s.ring);
    assert p.ms / 1000 == 0;
    assert BytesPerSecond(p.allDirty, p.ms) == SIZE * sent;
    FarFromDone(FULLER * SIZE, SIZE * sent);
  }

  // ----- round after round -----

  /** One entry more than half of the ring. */
  const FULLER: nat := STREAM_SIZE / 2 + 1

  /** A change is about to be sent with the ring just over half full; `sent` images are accounted for. */
  ghost predicate Flooded(t: Timed, sent: nat) {
    && Fresh(t) && |t.s.ring| == FULLER && Changes(t.s.ring)
    && t.p == Pace(SIZE * sent, 0, false) && t.longest == SIZE && t.most == FULLER
    && (sent < FULLER / CONVERGE_SECS ==> t.estimated)
  }

  /** A transfer is to be decided on, with room for one more entry. */
  ghost predicate Deciding(t: Timed, sent: nat) {
    && Busy(t.s) && t.s.phase == Decide(true) && t.s.xfer == WHOLE && Changes(t.s.ring)
    && t.p == Pace(SIZE * sent, 0, false) && t.longest == SIZE && t.most <= FULLER
    && (sent < FULLER / CONVERGE_SECS ==> t.estimated)
  }

  /** The check lets it go, whatever the rate, because the ring is more than half full. */
  lemma Passes(limit: nat, o: Timed, t: Timed, sent: nat) returns (u: Timed)
    requires Gets(limit, o, t) && Deciding(t, sent) && |t.s.ring| == FULLER
    ensures Gets(limit, o, u) && Flooded(u, sent)
  {
    var a := DecideNext(false);
    u := Timed(DecideOn(t.s, false), Checked(limit, t.p, FULLER), SIZE, FULLER, t.estimated && AsEstimated(t.s, t.p, a));
    GoesOn(limit, o, t, Act(a), u);
    if sent < FULLER / CONVERGE_SECS {
      NotConverging(t.s, t.p, sent);
    }
  }

  /** The ring was taken from and is filled up again. */
  lemma Refills(limit: nat, o: Timed, t: Timed, sent: nat) returns (u: Timed)
    requires Gets(limit, o, t) && Deciding(t, sent) && |t.s.ring| + 1 == FULLER
    ensures Gets(limit, o, u) && Flooded(u, sent)
  {
    var v := Writes(limit, o, t);
    u := Passes(limit, o, v, sent);
  }

  lemma Round(limit: nat, o: Timed, t: Timed, sent: nat) returns (u: Timed)
    requires Gets(limit, o, t) && Flooded(t, sent)
    ensures Gets(limit, o, u) && Flooded(u, sent + 1)
  {
    var v := Transfers(limit, o, t);
    var w := Accounts(limit, o, v);
    var x := Starts(limit, o, w);
    var y := Takes(limit, o, x);
    assert Changes(y.s.ring);
    assert SIZE * sent + SIZE == SIZE * (sent + 1);
    u := Refills(limit, o, y, sent + 1);
  }

  lemma {:induction false} Rounds(limit: nat, o: Timed, t: Timed, sent: nat, n: nat) returns (u: Timed)
    requires Gets(limit, o, t) && Flooded(t, sent)
    ensures Gets(limit, o, u) && Flooded(u, sent + n)
    decreases n
  {
    if n == 0 {
      u := t;
    } else {
      var v := Round(limit, o, t, sent);
      u := Rounds(limit, o, v, sent + 1, n - 1);
    }
  }

  // ----- how it begins -----

  /** An image of zeroes, one client, no attempt yet. */
  function Before(): State {
    var image := seq(SIZE, _ => 0);
    State(SIZE, image, image, [], false, map[7 := Idle], {}, true, true, 0, false, false, NoXfer, Resting, [])
  }

  lemma Arms(limit: nat, o: Timed) returns (t: Timed)
    requires o == AtRest(Before())
    ensures Gets(limit, o, t) && t == AtRest(t.s)
    ensures t.s == Before().(offset := SIZE, scans := t.s.scans, phase := Arming, xfer := WHOLE)
  {
    GetsNowhere(limit, o);
    var s1 := Start(o.s, o.s.dst);
    GoesOn(limit, o, o, Act(StartAttempt(o.s.dst)), AtRest(s1));
    var s2 := Begin(s1);
    Steps(limit, o, AtRest(s1), SetupBegin, s2);
    t := AtRest(End(s2));
    Steps(limit, o, AtRest(s2), SetupEnd, t.s);
  }

  lemma Opens(limit: nat, o: Timed) returns (u: Timed)
    requires o == AtRest(Before())
    ensures Gets(limit, o, u) && u == AtRest(u.s) && Fresh(u) && u.s.ring == [Entry(On, 0, SIZE)]
  {
    var t := Arms(limit, o);
    u := t.(s := Enable(t.s));
    Steps(limit, o, t, EnableStream, u.s);
  }

  lemma Floods(limit: nat, o: Timed) returns (u: Timed)
    requires o == AtRest(Before())
    ensures Gets(limit, o, u) && Flooded(u, 1)
  {
    var t := Opens(limit, o);
    var v := Transfers(limit, o, t);
    var w := WritesUntil(limit, o, v, FULLER + 1);
    var x := Accounts(limit, o, w);
    var y := SkipsFirst(limit, o, x);
    var z := Takes(limit, o, y);
    assert Changes(z.s.ring);
    u := Refills(limit, o, z, 1);
  }

  // ----- the limit, exactly -----

  lemma BeforeIsInitial()
    ensures Initial(Before())
  {
  }

  /** 32 GiB a second. */
  const FAST: nat := 0x8_0000_0000

  /**
   Whatever the limit, a run with one entry too many in the ring overruns it; below 32 GiB a second
   it is a run in which every decision is the one the estimate calls for.
   */
  lemma LimitOverrun(limit: nat) returns (t: Timed)
    ensures Initial(Before()) && Gets(limit, AtRest(Before()), t)
    ensures t.most == FULLER && !Within(limit, t)
    ensures limit < FAST ==> t.estimated
  {
    BeforeIsInitial();
    var o := AtRest(Before());
    var u := Floods(limit, o);
    var n := limit / SIZE + 1;
    t := Rounds(limit, o, u, 1, n);
    assert t.p.ms / 1000 == 0;
    assert limit + 1 <= SIZE * n;
    assert SIZE * (1 + n) == SIZE + SIZE * n;
    if limit < FAST {
      assert n <= FAST / SIZE + 1;
    }
  }

  /**
   Every run whose checks all find at most `q` entries keeps within the limit: every run, or every
   one whose decisions are those the estimate calls for.
   */
  ghost predicate Binds(limit: nat, q: nat, estimatedOnly: bool) {
    forall s, t :: Initial(s) && Gets(limit, AtRest(s), t) && t.most <= q && (estimatedOnly ==> t.estimated) ==> Within(limit, t)
  }

  lemma HalfFullBinds(limit: nat, s: State, t: Timed)
    requires Initial(s) && Gets(limit, AtRest(s), t) && t.most <= STREAM_SIZE / 2
    ensures Within(limit, t)
  {
    var moves :| CanGo(limit, AtRest(s), moves) && Gone(limit, AtRest(s), moves) == t;
    RateLimit(limit, s, moves);
  }

  /** The limit binds exactly for rings at most half full. */
  lemma LimitBindsIff(limit: nat, q: nat, estimatedOnly: bool)
    requires estimatedOnly ==> limit < FAST
    ensures Binds(limit, q, estimatedOnly) <==> q <= STREAM_SIZE / 2
  {
    if q <= STREAM_SIZE / 2 {
      forall s, t | Initial(s) && Gets(limit, AtRest(s), t) && t.most <= q ensures Within(limit, t) {
        HalfFullBinds(limit, s, t);
      }
    } else {
      var t := LimitOverrun(limit);
      assert t.most <= q;
    }
  }
}
