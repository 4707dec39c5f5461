/**
 Safety of live migration over every interleaving of the steps in MigrationSteps: while an
 attempt runs, each byte either agrees on both sides or something still in the system will
 cause it to be sent again.
 */
module Migration {
  import opened Bytes
  import opened EventStream
  import opened Schedule
  import opened Wire
  import opened MigrationSteps

  // ----- the invariant -----

  /** A queued change event names byte `b`. */
  ghost predicate Queued(ring: seq<Entry>, b: nat) {
    exists j :: 0 <= j < |ring| && Names(ring[j], b)
  }

  /** A client has stored byte `b` and has not reached its enqueue yet. */
  ghost predicate BeingStored(clients: map<nat, Piece>, b: nat) {
    exists c :: c in clients && clients[c].Storing? && clients[c].lo <= b < clients[c].cur
  }

  /** Byte `b` belongs to the current transfer and has not been read from the source yet. */
  ghost predicate Unsent(x: Xfer, b: nat) {
    x.Xfer? && x.from + |x.wire| <= b < x.from + x.len
  }

  /** The value byte `b` of the destination has once everything on the wire is applied. */
  ghost function Copy(dst: seq<byte>, x: Xfer, b: nat): byte
    requires b < |dst|
  {
    if x.Xfer? && x.from <= b < x.from + |x.wire| then x.wire[b - x.from] else dst[b]
  }

  /** Byte `b` will be sent again: it is at or past the scan, queued, or about to be queued. */
  ghost predicate Awaited(offset: nat, ring: seq<Entry>, clients: map<nat, Piece>, b: nat) {
    b >= offset || Queued(ring, b) || BeingStored(clients, b)
  }

  /** Byte `b` is still to be read by the current transfer, or what was sent for it is right. */
  ghost predicate Settled(src: seq<byte>, dst: seq<byte>, x: Xfer, b: nat)
    requires b < |dst| == |src|
  {
    Unsent(x, b) || Copy(dst, x, b) == src[b]
  }

  /** A change event naming byte `b` is between the ring and the next transfer. */
  ghost predicate InHand(p: Phase, b: nat) {
    p.Setup? && Names(p.last, b)
  }

  ghost predicate Safe(s: State, b: nat)
    requires b < |s.dst| == |s.src|
  {
    || b in s.torn
    || Awaited(s.offset, s.ring, s.clients, b)
    || InHand(s.phase, b)
    || Settled(s.src, s.dst, s.xfer, b)
  }

  ghost predicate InRange(e: Entry, size: nat) {
    e.event == Set ==> IsPiece(size, e.from, e.from + e.len)
  }

  ghost predicate Shape(s: State) {
    && 0 < s.size == |s.src| == |s.dst| && s.size < WORD
    && s.offset <= s.size
    && |s.ring| <= STREAM_SIZE
    && (forall j :: 0 <= j < |s.ring| ==> InRange(s.ring[j], s.size))
    && (forall c :: c in s.clients && s.clients[c].Storing? ==>
          s.clients[c].lo <= s.clients[c].cur <= s.clients[c].hi && IsPiece(s.size, s.clients[c].lo, s.clients[c].hi))
  }

  ghost predicate XferShape(size: nat, dst: seq<byte>, x: Xfer)
    requires |dst| == size
  {
    x.Xfer? ==>
      && IsPiece(size, x.from, x.from + x.len)
      && x.written <= REQUEST_SIZE + x.len && x.read < REPLY_SIZE
      && |x.wire| == (if x.written < REQUEST_SIZE then 0 else x.written - REQUEST_SIZE)
      && x.applied <= |x.wire|
      && (forall i :: 0 <= i < x.applied ==> dst[x.from + i] == x.wire[i])
      && (x.acked ==> x.applied == x.len && x.written == REQUEST_SIZE + x.len)
  }

  predicate Running(p: Phase) {
    !(p.Resting? || p.Failing? || p.Arming? || (p.Setup? && p.round.First?))
  }

  /** Nobody but the mirror can touch the image or the stream any more. */
  ghost predicate Quiet(s: State) {
    !s.allowNew && s.clients == map[]
  }

  ghost predicate PhaseShape(s: State) {
    match s.phase
    case Resting => s.xfer.NoXfer? && !s.clientsClosed
    case Failing => s.xfer.NoXfer? && !s.clientsClosed
    case Setup(round, _, last) =>
      && s.xfer.NoXfer? && InRange(last, s.size)
      && (round.First? ==> s.offset == 0 && !s.clientsClosed)
    case Arming =>
      && s.xfer.Xfer? && s.xfer.written == 0 && !s.clientsClosed
      && (s.offset == 0 || (s.xfer.from == 0 && s.xfer.len == s.offset))
    case Sending => s.xfer.Xfer? && s.xfer.written < REQUEST_SIZE + s.xfer.len
    case Reading => s.xfer.Xfer? && s.xfer.written == REQUEST_SIZE + s.xfer.len
    case Decide(next) => Between(s, next)
    case Closing(next) => Between(s, next) && !s.allowNew && !s.clientsClosed
    case Completing => Finished(s) && s.listening
    case Closed => Finished(s) && !s.listening
    case Done => Finished(s) && !s.listening
  }

  ghost predicate Between(s: State, next: bool) {
    if next then s.xfer.Xfer? && s.xfer.written == 0
    else s.xfer.NoXfer? && s.offset == s.size && (s.clientsClosed ==> s.ring == [])
  }

  ghost predicate Finished(s: State) {
    s.clientsClosed && s.xfer.NoXfer? && s.offset == s.size && s.ring == []
  }

  /** The scan chunks so far cut [0, offset) into consecutive non-empty pieces of at most 8 MiB. */
  ghost predicate Partition(scans: seq<(nat, nat)>, upTo: nat) {
    && (forall i :: 0 <= i < |scans| ==>
          && 0 < scans[i].1 <= LONGEST_WRITE
          && scans[i].0 == if i == 0 then 0 else scans[i - 1].0 + scans[i - 1].1)
    && upTo == if scans == [] then 0 else scans[|scans| - 1].0 + scans[|scans| - 1].1
  }

  ghost predicate Covered(s: State)
    requires Shape(s)
  {
    forall b :: 0 <= b < s.size ==> Safe(s, b)
  }

  /** Everything but the coverage of bytes. */
  ghost predicate Frame(s: State) {
    && Shape(s)
    && XferShape(s.size, s.dst, s.xfer)
    && PhaseShape(s)
    && (s.clientsClosed ==> Quiet(s))
    && (!(s.phase.Completing? || s.phase.Closed? || s.phase.Done?) ==> s.listening)
  }

  ghost predicate Inv(s: State) {
    && Frame(s)
    && (s.phase.Resting? || s.phase.Failing? || Partition(s.scans, s.offset))
    && (Running(s.phase) ==> s.streaming && Covered(s))
  }

  // ----- every step keeps it -----

  lemma QueuedAppend(ring: seq<Entry>, e: Entry, b: nat)
    ensures Queued(ring + [e], b) <==> Queued(ring, b) || Names(e, b)
  {
    if Queued(ring, b) {
      var j :| 0 <= j < |ring| && Names(ring[j], b);
      assert Names((ring + [e])[j], b);
    }
    if Names(e, b) {
      assert Names((ring + [e])[|ring|], b);
    }
  }

  lemma QueuedPop(ring: seq<Entry>, b: nat)
    requires ring != [] && Queued(ring, b)
    ensures Queued(ring[1..], b) || Names(ring[0], b)
  {
    var j :| 0 <= j < |ring| && Names(ring[j], b);
    if j > 0 {
      assert ring[1..][j - 1] == ring[j];
    }
  }

  /** Coverage depends on nothing but the bytes, the stream, the clients and the transfer. */
  lemma SameBytes(s: State, t: State)
    requires Shape(s) && Covered(s) && !s.phase.Setup?
    requires t.size == s.size && t.src == s.src && t.dst == s.dst && t.ring == s.ring
    requires t.clients == s.clients && t.torn == s.torn && t.offset == s.offset && t.xfer == s.xfer
    ensures Shape(t) && Covered(t)
  {
    forall b | 0 <= b < s.size ensures Safe(t, b) {
      assert Safe(s, b);
    }
  }

  /** What clients do between their stores and their events loses no half-stored byte. */
  lemma StoredKept(clients: map<nat, Piece>, clients': map<nat, Piece>, b: nat)
    requires forall c :: c in clients && clients[c].Storing? ==>
               c in clients' && clients'[c].Storing? && clients'[c].lo == clients[c].lo && clients[c].cur <= clients'[c].cur
    ensures BeingStored(clients, b) ==> BeingStored(clients', b)
  {
    if BeingStored(clients, b) {
      var c :| c in clients && clients[c].Storing? && clients[c].lo <= b < clients[c].cur;
      assert c in clients' && clients'[c].Storing? && clients'[c].lo <= b < clients'[c].cur;
    }
  }

  /** Taking client `c` out of its piece affects only the bytes of that piece. */
  lemma StoredWithout(clients: map<nat, Piece>, clients': map<nat, Piece>, c: nat, b: nat)
    requires c in clients && clients[c].Storing?
    requires forall d :: d in clients && d != c ==> d in clients' && clients'[d] == clients[d]
    ensures BeingStored(clients, b) ==> BeingStored(clients', b) || clients[c].lo <= b < clients[c].cur
  {
    if BeingStored(clients, b) {
      var d :| d in clients && clients[d].Storing? && clients[d].lo <= b < clients[d].cur;
      if d != c {
        assert clients'[d] == clients[d];
      }
    }
  }

  /** A client comes, goes, or starts a piece: no half-stored byte is forgotten. */
  lemma ClientsKeep(s: State, a: Step)
    requires Inv(s) && (a.Accept? || a.ClientExit? || a.BeginPiece?) && Enabled(s, a)
    ensures Inv(Apply(s, a))
  {
    var t := Apply(s, a);
    if Running(s.phase) {
      forall b | 0 <= b < s.size ensures Safe(t, b) {
        assert Safe(s, b);
        StoredKept(s.clients, t.clients, b);
      }
    }
  }

  lemma StoreKeeps(s: State, c: nat, data: seq<byte>)
    requires Inv(s) && Enabled(s, StoreBytes(c, data))
    ensures Inv(Store(s, c, data))
  {
    var t := Store(s, c, data);
    var p := s.clients[c];
    if Running(s.phase) {
      forall b | 0 <= b < s.size ensures Safe(t, b) {
        assert Safe(s, b);
        StoredKept(s.clients, t.clients, b);
        if p.cur <= b < p.cur + |data| {
          assert c in t.clients && t.clients[c].lo <= b < t.clients[c].cur;
          assert BeingStored(t.clients, b);
        } else {
          assert t.src[b] == s.src[b];
        }
      }
    }
  }

  lemma PostKeeps(s: State, c: nat)
    requires Inv(s) && Enabled(s, PostEvent(c))
    ensures Inv(Post(s, c))
  {
    var t := Post(s, c);
    var p := s.clients[c];
    if Running(s.phase) {
      forall b | 0 <= b < s.size ensures Safe(t, b) {
        assert Safe(s, b);
        QueuedAppend(s.ring, Entry(Set, p.lo, p.hi - p.lo), b);
        StoredWithout(s.clients, t.clients, c, b);
      }
    }
  }

  lemma AbortKeeps(s: State, c: nat)
    requires Inv(s) && Enabled(s, Abort(c))
    ensures Inv(Tear(s, c))
  {
    var t := Tear(s, c);
    if Running(s.phase) {
      forall b | 0 <= b < s.size ensures Safe(t, b) {
        assert Safe(s, b);
        StoredWithout(s.clients, t.clients, c, b);
      }
    }
  }

  lemma StartKeeps(s: State, dst: seq<byte>)
    requires Inv(s) && Enabled(s, StartAttempt(dst))
    ensures Inv(Start(s, dst))
  {
  }

  lemma BeginKeeps(s: State)
    requires Inv(s) && Enabled(s, SetupBegin)
    ensures Inv(Begin(s))
  {
    if Running(s.phase) {
      forall b | 0 <= b < s.size ensures Safe(Begin(s), b) {
        assert Safe(s, b);
      }
    }
  }

  lemma DequeueKeeps(s: State, events: nat)
    requires Inv(s) && Enabled(s, SetupDequeue(events))
    ensures Inv(Dequeue(s, events))
  {
    if Running(s.phase) {
      forall b | 0 <= b < s.size ensures Safe(Dequeue(s, events), b) {
        assert Safe(s, b);
        if Queued(s.ring, b) {
          QueuedPop(s.ring, b);
        }
      }
    }
  }

  lemma PartitionGrows(scans: seq<(nat, nat)>, offset: nat, run: nat)
    requires Partition(scans, offset) && 0 < run <= LONGEST_WRITE
    ensures Partition(scans + [(offset, run)], offset + run)
  {
    var t := scans + [(offset, run)];
    forall i | 0 <= i < |t|
      ensures 0 < t[i].1 <= LONGEST_WRITE && t[i].0 == if i == 0 then 0 else t[i - 1].0 + t[i - 1].1
    {
      assert i < |scans| ==> t[i] == scans[i];
    }
  }

  lemma EndWithNothing(s: State)
    requires Inv(s) && Enabled(s, SetupEnd) && s.phase.last.event != Set && s.offset == s.size
    ensures Inv(End(s))
  {
    forall b | 0 <= b < s.size ensures Safe(End(s), b) {
      assert Safe(s, b);
    }
  }

  lemma EndWithEvent(s: State)
    requires Inv(s) && Enabled(s, SetupEnd) && s.phase.last.event == Set
    ensures Inv(End(s))
  {
    if Running(s.phase) {
      forall b | 0 <= b < s.size ensures Safe(End(s), b) {
        assert Safe(s, b);
        assert InHand(s.phase, b) ==> Unsent(End(s).xfer, b);
      }
    }
  }

  lemma ScanFrame(s: State)
    requires Frame(s) && Enabled(s, SetupEnd) && s.phase.last.event != Set && s.offset < s.size
    ensures Frame(End(s))
  {
  }

  lemma EndWithScan(s: State)
    requires Inv(s) && Enabled(s, SetupEnd) && s.phase.last.event != Set && s.offset < s.size
    ensures Inv(End(s))
  {
    ScanFrame(s);
    PartitionGrows(s.scans, s.offset, ScanLength(s.offset, s.size));
    var t := End(s);
    if Running(s.phase) {
      forall b | 0 <= b < s.size ensures Safe(t, b) {
        assert Safe(s, b);
        assert s.offset <= b < t.offset ==> Unsent(t.xfer, b);
      }
    }
  }

  lemma EnableKeeps(s: State)
    requires Inv(s) && Enabled(s, EnableStream)
    ensures Inv(Enable(s))
  {
    forall b | 0 <= b < s.size ensures Safe(Enable(s), b) {
      assert b >= s.offset || Unsent(s.xfer, b);
    }
  }

  /** Sending more of the payload: what is read is the source as it is now. */
  lemma SendSettles(src: seq<byte>, dst: seq<byte>, x: Xfer, count: nat, b: nat)
    requires b < |dst| == |src| && x.Xfer? && XferShape(|dst|, dst, x) && count <= ToWrite(x)
    ensures var y := SendMore(x, src, count);
            && XferShape(|dst|, dst, y)
            && (Settled(src, dst, x, b) ==> Settled(src, dst, y, b))
  {
    var y := SendMore(x, src, count);
    assert x.wire <= y.wire;
    if x.from + |x.wire| <= b < x.from + |y.wire| {
      assert y.wire[b - x.from] == src[b];
    } else {
      assert Copy(dst, y, b) == Copy(dst, x, b);
    }
  }

  lemma WriteKeeps(s: State, count: nat)
    requires Inv(s) && Enabled(s, MirrorWrite(count))
    ensures Inv(Write(s, count))
  {
    SendSettles(s.src, s.dst, s.xfer, count, 0);
    forall b | 0 <= b < s.size ensures Safe(Write(s, count), b) {
      assert Safe(s, b);
      SendSettles(s.src, s.dst, s.xfer, count, b);
    }
  }

  /** Storing more of what arrived changes no byte as it will be once all of it is stored. */
  lemma ApplyShape(dst: seq<byte>, dst': seq<byte>, x: Xfer, count: nat)
    requires x.Xfer? && XferShape(|dst|, dst, x) && x.applied + count <= |x.wire|
    requires dst' == Splice(dst, x.from + x.applied, x.wire[x.applied..x.applied + count])
    ensures var y := x.(applied := x.applied + count);
            && XferShape(|dst'|, dst', y)
            && forall b :: 0 <= b < |dst| ==> Copy(dst', y, b) == Copy(dst, x, b)
  {
  }

  lemma DestApplyKeeps(s: State, count: nat)
    requires Inv(s) && Enabled(s, DestApply(count))
    ensures Inv(ApplyAtDest(s, count))
  {
    ApplyShape(s.dst, ApplyAtDest(s, count).dst, s.xfer, count);
    if Running(s.phase) {
      forall b | 0 <= b < s.size ensures Safe(ApplyAtDest(s, count), b) {
        assert Safe(s, b);
      }
    }
  }

  lemma AckKeeps(s: State)
    requires Inv(s) && Enabled(s, DestAck)
    ensures Inv(Ack(s))
  {
    if Running(s.phase) {
      forall b | 0 <= b < s.size ensures Safe(Ack(s), b) {
        assert Safe(s, b);
        assert Copy(s.dst, Ack(s).xfer, b) == Copy(s.dst, s.xfer, b);
      }
    }
  }

  /** Once applied in full, a transfer may be forgotten: the destination holds what was sent. */
  lemma DropTransfer(src: seq<byte>, dst: seq<byte>, x: Xfer, b: nat)
    requires XferShape(|dst|, dst, x) && b < |dst| == |src|
    requires x.Xfer? && x.applied == |x.wire| == x.len
    ensures Settled(src, dst, x, b) ==> Settled(src, dst, NoXfer, b)
  {
    if x.from <= b < x.from + x.len {
      assert dst[x.from + (b - x.from)] == x.wire[b - x.from];
    }
  }

  lemma ReadKeeps(s: State, count: nat)
    requires Inv(s) && Enabled(s, MirrorRead(count))
    ensures Inv(Read(s, count))
  {
    var t := Read(s, count);
    forall b | 0 <= b < s.size ensures Safe(t, b) {
      assert Safe(s, b);
      DropTransfer(s.src, s.dst, s.xfer, b);
      assert t.xfer.Xfer? ==> Copy(s.dst, t.xfer, b) == Copy(s.dst, s.xfer, b);
    }
  }

  lemma DecideKeeps(s: State, converging: bool)
    requires Inv(s) && s.phase.Decide?
    ensures Inv(DecideOn(s, converging))
  {
    SameBytes(s, DecideOn(s, converging));
  }

  lemma JoinKeeps(s: State)
    requires Inv(s) && Enabled(s, JoinClients)
    ensures Inv(Join(s))
  {
    SameBytes(s, Join(s));
  }

  /** The last steps leave bytes, stream and transfer alone. */
  lemma HandoverKeeps(s: State, a: Step)
    requires Inv(s) && Enabled(s, a)
    requires a.ServerCloses? || a.SendDisconnect?
    ensures Inv(Apply(s, a))
  {
    SameBytes(s, Apply(s, a));
  }

  lemma GiveUpKeeps(s: State)
    requires Inv(s) && Enabled(s, Fail)
    ensures Inv(GiveUp(s))
  {
  }

  lemma DisableKeeps(s: State)
    requires Inv(s) && Enabled(s, DisableStream)
    ensures Inv(Disable(s))
  {
  }

  predicate IsClientStep(a: Step) {
    a.Accept? || a.ClientExit? || a.BeginPiece? || a.StoreBytes? || a.PostEvent? || a.Abort?
  }

  predicate IsSetupStep(a: Step) {
    a.StartAttempt? || a.SetupBegin? || a.SetupDequeue? || a.SetupEnd? || a.EnableStream?
  }

  predicate IsTransferStep(a: Step) {
    a.MirrorWrite? || a.DestApply? || a.DestAck? || a.MirrorRead?
  }

  lemma WritingKeepsInv(s: State, a: Step)
    requires Inv(s) && Enabled(s, a) && (a.StoreBytes? || a.PostEvent? || a.Abort?)
    ensures Inv(Apply(s, a))
  {
    match a
    case StoreBytes(c, data) => StoreKeeps(s, c, data);
    case PostEvent(c) => PostKeeps(s, c);
    case Abort(c) => AbortKeeps(s, c);
  }

  lemma EndKeeps(s: State)
    requires Inv(s) && Enabled(s, SetupEnd)
    ensures Inv(End(s))
  {
    if s.phase.last.event == Set {
      EndWithEvent(s);
    } else if s.offset < s.size {
      EndWithScan(s);
    } else {
      EndWithNothing(s);
    }
  }

  lemma SetupKeepsInv(s: State, a: Step)
    requires Inv(s) && Enabled(s, a) && (a.SetupBegin? || a.SetupDequeue? || a.SetupEnd?)
    ensures Inv(Apply(s, a))
  {
    match a
    case SetupBegin => BeginKeeps(s);
    case SetupDequeue(events) => DequeueKeeps(s, events);
    case SetupEnd => EndKeeps(s);
  }

  lemma StartingKeepsInv(s: State, a: Step)
    requires Inv(s) && Enabled(s, a) && (a.StartAttempt? || a.EnableStream?)
    ensures Inv(Apply(s, a))
  {
    match a
    case StartAttempt(dst) => StartKeeps(s, dst);
    case EnableStream => EnableKeeps(s);
  }

  lemma TransferKeepsInv(s: State, a: Step)
    requires Inv(s) && Enabled(s, a) && IsTransferStep(a)
    ensures Inv(Apply(s, a))
  {
    match a
    case MirrorWrite(count) => WriteKeeps(s, count);
    case DestApply(count) => DestApplyKeeps(s, count);
    case DestAck => AckKeeps(s);
    case MirrorRead(count) => ReadKeeps(s, count);
  }

  lemma EndingKeepsInv(s: State, a: Step)
    requires Inv(s) && Enabled(s, a) && (a.DecideNext? || a.JoinClients? || a.Fail? || a.DisableStream?)
    ensures Inv(Apply(s, a))
  {
    match a
    case DecideNext(converging) => DecideKeeps(s, converging);
    case JoinClients => JoinKeeps(s);
    case Fail => GiveUpKeeps(s);
    case DisableStream => DisableKeeps(s);
  }

  /** The induction step of every safety theorem below. */
  lemma StepKeepsInv(s: State, a: Step)
    requires Inv(s) && Enabled(s, a)
    ensures Inv(Apply(s, a))
  {
    if a.StoreBytes? || a.PostEvent? || a.Abort? {
      WritingKeepsInv(s, a);
    } else if IsClientStep(a) {
      ClientsKeep(s, a);
    } else if a.StartAttempt? || a.EnableStream? {
      StartingKeepsInv(s, a);
    } else if IsSetupStep(a) {
      SetupKeepsInv(s, a);
    } else if IsTransferStep(a) {
      TransferKeepsInv(s, a);
    } else if a.ServerCloses? || a.SendDisconnect? {
      HandoverKeeps(s, a);
    } else {
      EndingKeepsInv(s, a);
    }
  }

  // ----- whole runs -----

  /** A server with any image, any clients idle, any stale events, and no attempt running. */
  ghost predicate Initial(s: State) {
    && Shape(s) && s.phase.Resting? && s.xfer.NoXfer? && s.listening && !s.clientsClosed
    && forall c :: c in s.clients ==> s.clients[c].Idle?
  }

  lemma {:induction false} RunKeepsInv(s: State, run: seq<Step>)
    requires Inv(s) && CanRun(s, run)
    ensures Inv(Exec(s, run))
    decreases |run|
  {
    if run != [] {
      StepKeepsInv(s, run[0]);
      RunKeepsInv(Apply(s, run[0]), run[1..]);
    }
  }

  ghost predicate AgreeOutside(src: seq<byte>, dst: seq<byte>, torn: set<nat>) {
    && |src| == |dst|
    && forall b :: 0 <= b < |src| && b !in torn ==> dst[b] == src[b]
  }

  /** mirror_complete has been reached (MS_DONE follows, whatever else happens). */
  predicate Migrated(p: Phase) {
    p.Completing? || p.Closed? || p.Done?
  }

  lemma FinishedAgrees(s: State)
    requires Inv(s) && Migrated(s.phase)
    ensures AgreeOutside(s.src, s.dst, s.torn)
    ensures Quiet(s)
  {
    forall b | 0 <= b < |s.src| && b !in s.torn ensures s.dst[b] == s.src[b] {
      assert Safe(s, b);
      assert !Queued(s.ring, b);
      assert !BeingStored(s.clients, b);
    }
  }

  /**
   Migration safety: in every interleaving, an attempt that completes leaves the destination
   equal to the source at every byte that no client tore during the attempt, with every
   client joined and new ones refused.
   */
  lemma MigrationSafety(s: State, run: seq<Step>)
    requires Initial(s) && CanRun(s, run) && Migrated(Exec(s, run).phase)
    ensures var t := Exec(s, run);
            AgreeOutside(t.src, t.dst, t.torn) && t.clients == map[] && !t.allowNew
  {
    RunKeepsInv(s, run);
    FinishedAgrees(Exec(s, run));
  }

  /** No client broke off mid-payload since the latest attempt began. */
  predicate NoAbort(run: seq<Step>) {
    forall i :: 0 <= i < |run| ==> !run[i].Abort?
  }

  ghost predicate Steady(s: State, t: State) {
    t.size == s.size && t.torn == s.torn
  }

  lemma ComingSteady(s: State, a: Step)
    requires Enabled(s, a) && (a.Accept? || a.ClientExit? || a.BeginPiece?)
    ensures Steady(s, Apply(s, a))
  {
  }

  lemma WritingSteady(s: State, a: Step)
    requires Enabled(s, a) && (a.StoreBytes? || a.PostEvent?)
    ensures Steady(s, Apply(s, a))
  {
  }

  lemma SetupSteady(s: State, a: Step)
    requires Enabled(s, a) && (a.SetupBegin? || a.SetupDequeue? || a.SetupEnd? || a.EnableStream?)
    ensures Steady(s, Apply(s, a))
  {
  }

  lemma TransferSteady(s: State, a: Step)
    requires Enabled(s, a) && IsTransferStep(a)
    ensures Steady(s, Apply(s, a))
  {
    match a
    case MirrorWrite(count) => assert Steady(s, Write(s, count));
    case DestApply(count) => assert Steady(s, ApplyAtDest(s, count));
    case DestAck => assert Steady(s, Ack(s));
    case MirrorRead(count) => assert Steady(s, Read(s, count));
  }

  lemma EndingSteady(s: State, a: Step)
    requires Enabled(s, a) && !IsClientStep(a) && !IsSetupStep(a) && !IsTransferStep(a)
    ensures Steady(s, Apply(s, a))
  {
  }

  /** Only a client that breaks off tears bytes, and only a new attempt forgets them. */
  lemma StepSteady(s: State, a: Step)
    requires Enabled(s, a) && !a.Abort? && !a.StartAttempt?
    ensures Steady(s, Apply(s, a))
  {
    if a.StoreBytes? || a.PostEvent? {
      WritingSteady(s, a);
    } else if IsClientStep(a) {
      ComingSteady(s, a);
    } else if IsSetupStep(a) {
      SetupSteady(s, a);
    } else if IsTransferStep(a) {
      TransferSteady(s, a);
    } else {
      EndingSteady(s, a);
    }
  }

  lemma StepTears(s: State, a: Step)
    requires Enabled(s, a) && !a.Abort?
    ensures Apply(s, a).torn <= s.torn && Apply(s, a).size == s.size
  {
    if !a.StartAttempt? {
      StepSteady(s, a);
    }
  }

  lemma {:induction false} NoAbortNoTear(s: State, run: seq<Step>)
    requires CanRun(s, run) && NoAbort(run)
    ensures Exec(s, run).torn <= s.torn
    decreases |run|
  {
    if run != [] {
      StepTears(s, run[0]);
      assert forall i :: 0 <= i < |run[1..]| ==> run[1..][i] == run[i + 1];
      NoAbortNoTear(Apply(s, run[0]), run[1..]);
    }
  }

  /** An attempt during which no client broke off mid-payload migrates the image exactly. */
  lemma ExactMigration(s: State, before: seq<Step>, dst: seq<byte>, attempt: seq<Step>)
    requires Initial(s) && CanRun(s, before)
    requires var m := Exec(s, before);
             && Enabled(m, StartAttempt(dst))
             && CanRun(Start(m, dst), attempt) && NoAbort(attempt)
             && Migrated(Exec(Start(m, dst), attempt).phase)
    ensures var t := Exec(Start(Exec(s, before), dst), attempt); t.dst == t.src
  {
    var m := Exec(s, before);
    RunKeepsInv(s, before);
    StepKeepsInv(m, StartAttempt(dst));
    RunKeepsInv(Start(m, dst), attempt);
    NoAbortNoTear(Start(m, dst), attempt);
    FinishedAgrees(Exec(Start(m, dst), attempt));
  }

  /**
   Handover safety: once the source has sent DISCONNECT, every client is joined, the listening
   socket is closed, nobody new is let in and the copies agree outside the torn bytes.
   */
  lemma HandoverSafety(s: State, run: seq<Step>)
    requires Initial(s) && CanRun(s, run)
    requires Exec(s, run).phase.Done?
    ensures var t := Exec(s, run);
            && !t.listening && !t.allowNew && t.clients == map[]
            && AgreeOutside(t.src, t.dst, t.torn)
  {
    RunKeepsInv(s, run);
    FinishedAgrees(Exec(s, run));
  }

  /** From completion on, neither image changes again, and there is no way back. */
  lemma {:induction false} MigratedForGood(s: State, run: seq<Step>)
    requires Inv(s) && Migrated(s.phase) && CanRun(s, run)
    ensures var t := Exec(s, run);
            Migrated(t.phase) && t.src == s.src && t.dst == s.dst && t.torn == s.torn && t.clients == map[]
    decreases |run|
  {
    if run != [] {
      StepKeepsInv(s, run[0]);
      var t := Apply(s, run[0]);
      assert Migrated(t.phase) && t.src == s.src && t.dst == s.dst && t.torn == s.torn;
      MigratedForGood(t, run[1..]);
    }
  }

  /**
   Restart safety: whatever bytes the destination holds, whatever stale entries the ring holds and
   however many clients are mid-write, a new attempt re-establishes the invariant, and by the
   time its first byte is on the wire the coverage is in force.  (The destination stores what it
   is sent; Handover.HandoverAfter says when a listener with earlier connections does.)
   */
  lemma RestartSafety(s: State, dst: seq<byte>, run: seq<Step>)
    requires Shape(s) && s.phase.Resting? && s.listening && |dst| == s.size
    requires CanRun(Start(s, dst), run)
    ensures var t := Exec(Start(s, dst), run);
            && Inv(t)
            && (t.xfer.Xfer? && t.xfer.written > 0 ==> t.streaming && Covered(t))
  {
    RunKeepsInv(Start(s, dst), run);
  }
}
