/**
 Live migration as a system of interleaved steps: client threads that store bytes first and
 post a change event second (src/server/client.c), the mirror thread that scans, transfers,
 drains, closes clients and hands over (src/server/mirror.c), and the destination that
 applies and acknowledges.  Any enabled step may come next, so a run is any interleaving.
 */
module MigrationSteps {
  import opened Bytes
  import opened EventStream
  import opened Schedule
  import opened Wire

  /** A client between requests, or part-way through storing [lo, hi) with [lo, cur) stored. */
  datatype Piece = Idle | Storing(lo: nat, hi: nat, cur: nat)

  /**
   The transfer in progress.  `written` and `read` count the bytes of request and reply that
   have crossed the socket, `wire` is the payload sent so far as it was when it was sent, and
   `applied` is how much of it the destination has stored.
   */
  datatype Xfer =
    | NoXfer
    | Xfer(from: nat, len: nat, written: nat, read: nat, wire: seq<byte>, applied: nat, acked: bool)

  datatype Round = First | Later

  /** Where the mirror thread is. */
  datatype Phase =
    | Resting                                            // no attempt is running
    | Setup(round: Round, begun: bool, last: Entry)      // inside mirror_setup_next_xfer
    | Arming                                             // first transfer chosen, stream not yet on
    | Sending
    | Reading
    | Decide(next: bool)                                 // mirror_read_cb after the setup
    | Closing(next: bool)                                // new clients forbidden, joining the rest
    | Completing                                         // mirror_complete, close signalled
    | Closed                                             // listening socket closed
    | Done                                               // DISCONNECT sent, MS_DONE
    | Failing                                            // event loop left without MS_DONE

  datatype State = State(
    size: nat, src: seq<byte>, dst: seq<byte>,
    ring: seq<Entry>, streaming: bool,
    clients: map<nat, Piece>, torn: set<nat>,
    allowNew: bool, listening: bool,
    offset: nat, clear: bool, clientsClosed: bool, xfer: Xfer, phase: Phase,
    scans: seq<(nat, nat)>)   // history: the scan chunks of this attempt, (from, len), in order

  datatype Step =
    | Accept(c: nat)
    | ClientExit(c: nat)
    | BeginPiece(c: nat, lo: nat, hi: nat)
    | StoreBytes(c: nat, data: seq<byte>)
    | PostEvent(c: nat)
    | Abort(c: nat)
    | StartAttempt(dst: seq<byte>)
    | SetupBegin
    | SetupDequeue(events: nat)
    | SetupEnd
    | EnableStream
    | MirrorWrite(count: nat)
    | DestApply(count: nat)
    | DestAck
    | MirrorRead(count: nat)
    | DecideNext(converging: bool)
    | JoinClients
    | ServerCloses
    | SendDisconnect(handle: seq<byte>)
    | Fail
    | DisableStream

  /** How much the next write() of mirror_write_cb may take: the rest of the header, or of the payload. */
  function ToWrite(x: Xfer): nat
    requires x.Xfer? && x.written <= REQUEST_SIZE + x.len
  {
    if x.written < REQUEST_SIZE then REQUEST_SIZE - x.written else x.len - (x.written - REQUEST_SIZE)
  }

  /** A range a client can write in one piece: a request's length has 32 bits. */
  predicate IsPiece(size: nat, lo: nat, hi: nat) {
    lo <= hi <= size && 0 < hi && hi - lo < 0x1_0000_0000
  }

  predicate Enabled(s: State, a: Step) {
    match a
    // server_accept: testing allow_new_clients and spawning the thread is one step
    case Accept(c) => s.allowNew && s.listening && c !in s.clients
    case ClientExit(c) => c in s.clients && s.clients[c].Idle?
    // an empty write posts too, when there is no allocation map
    case BeginPiece(c, lo, hi) => c in s.clients && s.clients[c].Idle? && IsPiece(s.size, lo, hi)
    case StoreBytes(c, data) =>
      c in s.clients && s.clients[c].Storing? && s.clients[c].cur + |data| <= s.clients[c].hi <= |s.src|
    case PostEvent(c) =>
      && c in s.clients && s.clients[c].Storing? && s.clients[c].lo <= s.clients[c].cur == s.clients[c].hi
      && (s.streaming ==> |s.ring| < STREAM_SIZE)
    // the socket fails before the last byte has come
    case Abort(c) => c in s.clients && s.clients[c].Storing? && s.clients[c].cur < s.clients[c].hi
    case StartAttempt(dst) => s.phase.Resting? && s.listening && |dst| == s.size
    case SetupBegin => s.phase.Setup? && !s.phase.begun
    // `events` was read before the dequeue, and clients may have posted since
    case SetupDequeue(events) =>
      && s.phase.Setup? && s.phase.begun && Draining(s.offset, s.size, s.clear, s.phase.last)
      && 0 < events <= |s.ring|
    case SetupEnd =>
      s.phase.Setup? && s.phase.begun && (Draining(s.offset, s.size, s.clear, s.phase.last) ==> s.ring == [])
    case EnableStream => s.phase.Arming? && |s.ring| < STREAM_SIZE
    case MirrorWrite(count) =>
      && s.phase.Sending? && s.xfer.Xfer? && s.xfer.written <= REQUEST_SIZE + s.xfer.len
      && s.xfer.from + s.xfer.len <= |s.src| && count <= ToWrite(s.xfer)
    case DestApply(count) =>
      && s.xfer.Xfer? && s.xfer.applied + count <= |s.xfer.wire| && s.xfer.from + |s.xfer.wire| <= |s.dst|
    case DestAck =>
      && s.xfer.Xfer? && !s.xfer.acked && s.xfer.written == REQUEST_SIZE + s.xfer.len
      && s.xfer.applied == s.xfer.len == |s.xfer.wire|
    case MirrorRead(count) => s.phase.Reading? && s.xfer.Xfer? && s.xfer.acked && 0 < count && s.xfer.read + count <= REPLY_SIZE
    case DecideNext(converging) => s.phase.Decide?
    case JoinClients => s.phase.Closing? && s.clients == map[]
    case ServerCloses => s.phase.Completing?
    case SendDisconnect(handle) => s.phase.Closed? && |handle| == 8
    case Fail => s.phase.Arming? || s.phase.Sending? || s.phase.Reading?
    case DisableStream => s.phase.Failing? && |s.ring| < STREAM_SIZE
  }

  function Store(s: State, c: nat, data: seq<byte>): State
    requires Enabled(s, StoreBytes(c, data))
  {
    var p := s.clients[c];
    s.(src := Splice(s.src, p.cur, data), clients := s.clients[c := p.(cur := p.cur + |data|)])
  }

  /** bitset_set_range: the event is posted, under the bitset lock, only while the stream is on. */
  function Post(s: State, c: nat): State
    requires Enabled(s, PostEvent(c))
  {
    var p := s.clients[c];
    s.(clients := s.clients[c := Idle],
       ring := if s.streaming then s.ring + [Entry(Set, p.lo, p.hi - p.lo)] else s.ring)
  }

  /** The client's socket failed mid-payload: its stored bytes never get an event. */
  function Tear(s: State, c: nat): State
    requires Enabled(s, Abort(c))
  {
    var p := s.clients[c];
    s.(clients := s.clients - {c}, torn := s.torn + Interval(p.lo, p.cur))
  }

  /** mirror_reset and the top of mirror_run, with whatever the destination holds by now. */
  function Start(s: State, dst: seq<byte>): State {
    s.(dst := dst, offset := 0, clear := false, clientsClosed := false, xfer := NoXfer,
       torn := {}, scans := [], phase := Setup(First, false, NO_ENTRY))
  }

  function Begin(s: State): State
    requires Enabled(s, SetupBegin)
  {
    s.(clear := ClearAtStart(s.offset, s.size, s.clear, |s.ring|), phase := s.phase.(begun := true))
  }

  function Dequeue(s: State, events: nat): State
    requires Enabled(s, SetupDequeue(events))
  {
    s.(ring := s.ring[1..], clear := ClearAfterDequeue(s.clear, events), phase := s.phase.(last := s.ring[0]))
  }

  function End(s: State): State
    requires Enabled(s, SetupEnd)
  {
    var c := Choose(s.offset, s.size, s.phase.last);
    s.(offset := if c.Transfer? then c.offset else s.offset,
       phase := AfterSetup(s.phase.round, c.Transfer?),
       xfer := if c.Transfer? then Xfer(c.from, c.len, 0, 0, [], 0, false) else s.xfer,
       scans := if c.Transfer? && s.phase.last.event != Set then s.scans + [(c.from, c.len)] else s.scans)
  }

  /** mirror_run needs a first transfer; mirror_read_cb goes on to decide. */
  function AfterSetup(round: Round, next: bool): Phase {
    if round.Later? then Decide(next) else if next then Arming else Resting
  }

  function Enable(s: State): State {
    s.(streaming := true, ring := s.ring + [Entry(On, 0, s.size)], phase := Sending)
  }

  /** One write(): header bytes, or payload read from the mapping at the moment it is sent. */
  function SendMore(x: Xfer, src: seq<byte>, count: nat): Xfer
    requires x.Xfer? && x.written <= REQUEST_SIZE + x.len && x.from + x.len <= |src| && count <= ToWrite(x)
  {
    var at := x.from + (x.written - REQUEST_SIZE);
    x.(written := x.written + count,
       wire := if x.written < REQUEST_SIZE then x.wire else x.wire + src[at..at + count])
  }

  /** mirror_write_cb */
  function Write(s: State, count: nat): State
    requires Enabled(s, MirrorWrite(count))
  {
    var x := SendMore(s.xfer, s.src, count);
    s.(xfer := x, phase := if x.written == REQUEST_SIZE + x.len then Reading else Sending)
  }

  function ApplyAtDest(s: State, count: nat): State
    requires Enabled(s, DestApply(count))
  {
    var x := s.xfer;
    s.(dst := Splice(s.dst, x.from + x.applied, x.wire[x.applied..x.applied + count]),
       xfer := x.(applied := x.applied + count))
  }

  function Ack(s: State): State
    requires Enabled(s, DestAck)
  {
    s.(xfer := s.xfer.(acked := true))
  }

  /** mirror_read_cb up to the call of mirror_setup_next_xfer. */
  function Read(s: State, count: nat): State
    requires Enabled(s, MirrorRead(count))
  {
    var done := s.xfer.read + count == REPLY_SIZE;
    s.(xfer := if done then NoXfer else s.xfer.(read := s.xfer.read + count),
       phase := if done then Setup(Later, false, NO_ENTRY) else s.phase)
  }

  /** The clients are to be closed now: nothing is left to send, or the end is near. */
  predicate Closes(s: State, converging: bool)
    requires s.phase.Decide?
  {
    !s.clientsClosed && (!s.phase.next || converging)
  }

  /** mirror_read_cb after mirror_setup_next_xfer (605-627); the time estimate is not modelled. */
  function DecideOn(s: State, converging: bool): State
    requires s.phase.Decide?
  {
    s.(allowNew := s.allowNew && !Closes(s, converging),
       phase := if Closes(s, converging) then Closing(s.phase.next) else if s.phase.next then Sending else Completing)
  }

  function Join(s: State): State
    requires s.phase.Closing?
  {
    s.(clientsClosed := true, phase := if s.phase.next then Sending else Setup(Later, false, NO_ENTRY))
  }

  /** The event loop ended without MS_DONE: new clients are let in again, then the stream goes off. */
  function GiveUp(s: State): State {
    s.(allowNew := true, clientsClosed := false, xfer := NoXfer, phase := Failing)
  }

  function Disable(s: State): State {
    s.(ring := s.ring + [Entry(Off, 0, s.size)], streaming := false, phase := Resting)
  }

  function Apply(s: State, a: Step): State
    requires Enabled(s, a)
  {
    match a
    case Accept(c) => s.(clients := s.clients[c := Idle])
    case ClientExit(c) => s.(clients := s.clients - {c})
    case BeginPiece(c, lo, hi) => s.(clients := s.clients[c := Storing(lo, hi, lo)])
    case StoreBytes(c, data) => Store(s, c, data)
    case PostEvent(c) => Post(s, c)
    case Abort(c) => Tear(s, c)
    case StartAttempt(dst) => Start(s, dst)
    case SetupBegin => Begin(s)
    case SetupDequeue(events) => Dequeue(s, events)
    case SetupEnd => End(s)
    case EnableStream => Enable(s)
    case MirrorWrite(count) => Write(s, count)
    case DestApply(count) => ApplyAtDest(s, count)
    case DestAck => Ack(s)
    case MirrorRead(count) => Read(s, count)
    case DecideNext(converging) => DecideOn(s, converging)
    case JoinClients => Join(s)
    case ServerCloses => s.(listening := false, phase := Closed)
    case SendDisconnect(_) => s.(phase := Done)
    case Fail => GiveUp(s)
    case DisableStream => Disable(s)
  }

  /** Every step of the run is enabled when its turn comes. */
  predicate CanRun(s: State, run: seq<Step>)
    decreases |run|
  {
    run == [] || (Enabled(s, run[0]) && CanRun(Apply(s, run[0]), run[1..]))
  }

  function Exec(s: State, run: seq<Step>): State
    requires CanRun(s, run)
    decreases |run|
  {
    if run == [] then s else Exec(Apply(s, run[0]), run[1..])
  }

  lemma {:induction false} ExecConcat(s: State, a: seq<Step>, b: seq<Step>)
    requires CanRun(s, a) && CanRun(Exec(s, a), b)
    ensures CanRun(s, a + b) && Exec(s, a + b) == Exec(Exec(s, a), b)
    decreases |a|
  {
    if a == [] {
      assert a + b == b;
    } else {
      assert (a + b)[0] == a[0] && (a + b)[1..] == a[1..] + b;
      ExecConcat(Apply(s, a[0]), a[1..], b);
    }
  }

  lemma Prepend(s: State, a: Step, rest: seq<Step>)
    requires Enabled(s, a) && CanRun(Apply(s, a), rest)
    ensures CanRun(s, [a] + rest) && Exec(s, [a] + rest) == Exec(Apply(s, a), rest)
  {
    assert ([a] + rest)[1..] == rest;
  }

  /** No client stores anything, and an attempt finds the destination holding `dst`. */
  predicate Calm(run: seq<Step>, dst: seq<byte>) {
    forall i :: 0 <= i < |run| ==> CalmStep(run[i], dst)
  }

  predicate CalmStep(a: Step, dst: seq<byte>) {
    !a.StoreBytes? && (a.StartAttempt? ==> a.dst == dst)
  }

  /** Some run, a calm one if asked, leads from `s` to `t`. */
  ghost predicate Reaches(s: State, t: State, calm: bool) {
    exists run :: CanRun(s, run) && Exec(s, run) == t && (calm ==> Calm(run, s.dst))
  }

  lemma Stays(s: State, calm: bool)
    ensures Reaches(s, s, calm)
  {
    assert CanRun(s, []) && Exec(s, []) == s && Calm([], s.dst);
  }

  /** A run of one step. */
  lemma OneStep(s: State, a: Step)
    requires Enabled(s, a)
    ensures CanRun(s, [a]) && Exec(s, [a]) == Apply(s, a)
  {
    var t := Apply(s, a);
    assert CanRun(t, []) && Exec(t, []) == t;
    assert [a] + [] == [a];
    Prepend(s, a, []);
  }

  lemma Onward(o: State, s: State, a: Step, t: State, calm: bool)
    requires Reaches(o, s, calm) && Enabled(s, a) && t == Apply(s, a) && (calm ==> CalmStep(a, o.dst))
    ensures Reaches(o, t, calm)
  {
    var run :| CanRun(o, run) && Exec(o, run) == s && (calm ==> Calm(run, o.dst));
    OneStep(s, a);
    ExecConcat(o, run, [a]);
    assert calm ==> Calm(run + [a], o.dst);
  }
}
