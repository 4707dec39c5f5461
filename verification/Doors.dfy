/**
 What a mirror turns on it turns off again, over every run: the door for new clients, the listening
 socket and the stream of changes (src/server/mirror.c:601-627, 839-856), and the flag that puts
 queued changes before the scan (src/server/mirror.c:358-387).
 */
module Doors {
  import opened Bytes
  import opened EventStream
  import opened MigrationSteps
  import opened Migration

  /** A server that takes clients and has not been migrated yet. */
  ghost predicate Open(s: State) {
    Initial(s) && s.allowNew && !s.streaming && !s.clear
  }

  ghost predicate Doors(s: State) {
    && (!s.allowNew <==> s.phase.Closing? || s.clientsClosed)
    && (!s.listening <==> s.phase.Closed? || s.phase.Done?)
    && (!s.phase.Failing? ==> (s.streaming <==> Running(s.phase)))
  }

  /** Changes go before the scan only while there are about as many as a quarter of the ring holds. */
  ghost predicate FlagOk(s: State) {
    s.clear ==> |s.ring| >= 10921
  }

  // ----- one step -----

  ghost predicate SameDoors(s: State, t: State) {
    && t.allowNew == s.allowNew && t.listening == s.listening && t.streaming == s.streaming
    && t.phase == s.phase && t.clientsClosed == s.clientsClosed && t.clear == s.clear && |t.ring| >= |s.ring|
  }

  lemma ClientsPass(s: State, a: Step)
    requires Enabled(s, a) && IsClientStep(a)
    ensures SameDoors(s, Apply(s, a))
  {
  }

  lemma SetupDoors(s: State, a: Step)
    requires Enabled(s, a) && IsSetupStep(a) && Inv(s) && Doors(s)
    ensures Doors(Apply(s, a))
  {
  }

  lemma TransferDoors(s: State, a: Step)
    requires Enabled(s, a) && IsTransferStep(a) && Inv(s) && Doors(s)
    ensures Doors(Apply(s, a))
  {
    match a
    case MirrorWrite(count) => assert Doors(Write(s, count));
    case DestApply(count) => assert Doors(ApplyAtDest(s, count));
    case DestAck => assert Doors(Ack(s));
    case MirrorRead(count) => assert Doors(Read(s, count));
  }

  lemma EndingDoors(s: State, a: Step)
    requires Enabled(s, a) && !IsClientStep(a) && !IsSetupStep(a) && !IsTransferStep(a) && Inv(s) && Doors(s)
    ensures Doors(Apply(s, a))
  {
  }

  lemma StepDoors(s: State, a: Step)
    requires Enabled(s, a) && Inv(s) && Doors(s)
    ensures Doors(Apply(s, a))
  {
    if IsClientStep(a) {
      ClientsPass(s, a);
    } else if IsSetupStep(a) {
      SetupDoors(s, a);
    } else if IsTransferStep(a) {
      TransferDoors(s, a);
    } else {
      EndingDoors(s, a);
    }
  }

  /** The flag goes on and off at two places only. */
  ghost predicate FlagMoves(s: State, a: Step, t: State) {
    t.clear <==>
      match a
      case StartAttempt(_) => false
      case SetupBegin => s.clear || (s.offset < s.size && |s.ring| > 21845)
      case SetupDequeue(n) => s.clear && n >= 10922
      case _ => s.clear
  }

  lemma SetupFlag(s: State, a: Step)
    requires Enabled(s, a) && IsSetupStep(a) && FlagOk(s)
    ensures FlagMoves(s, a, Apply(s, a)) && FlagOk(Apply(s, a))
  {
  }

  lemma TransferFlag(s: State, a: Step)
    requires Enabled(s, a) && IsTransferStep(a)
    ensures Apply(s, a).clear == s.clear && Apply(s, a).ring == s.ring
  {
    match a
    case MirrorWrite(count) => assert Write(s, count).clear == s.clear;
    case DestApply(count) => assert ApplyAtDest(s, count).clear == s.clear;
    case DestAck => assert Ack(s).clear == s.clear;
    case MirrorRead(count) => assert Read(s, count).clear == s.clear;
  }

  lemma EndingFlag(s: State, a: Step)
    requires Enabled(s, a) && !IsClientStep(a) && !IsSetupStep(a) && !IsTransferStep(a)
    ensures Apply(s, a).clear == s.clear && |Apply(s, a).ring| >= |s.ring|
  {
  }

  lemma StepFlag(s: State, a: Step)
    requires Enabled(s, a) && FlagOk(s)
    ensures FlagMoves(s, a, Apply(s, a)) && FlagOk(Apply(s, a))
  {
    if IsClientStep(a) {
      ClientsPass(s, a);
    } else if IsSetupStep(a) {
      SetupFlag(s, a);
    } else if IsTransferStep(a) {
      TransferFlag(s, a);
    } else {
      EndingFlag(s, a);
    }
  }

  /** What is put into the ring and taken out of it. */
  ghost predicate RingMoves(s: State, a: Step, t: State) {
    match a
    case PostEvent(c) =>
      c in s.clients && s.clients[c].Storing? && s.clients[c].lo <= s.clients[c].hi &&
      t.ring == if s.streaming then s.ring + [Entry(Set, s.clients[c].lo, s.clients[c].hi - s.clients[c].lo)] else s.ring
    case EnableStream => t.ring == s.ring + [Entry(On, 0, s.size)]
    case DisableStream => t.ring == s.ring + [Entry(Off, 0, s.size)]
    case SetupDequeue(_) => s.ring != [] && [s.ring[0]] + t.ring == s.ring
    case _ => t.ring == s.ring
  }

  /** Changes come out in the order they went in, between the marks of the stream going on and off. */
  lemma StepRing(s: State, a: Step)
    requires Enabled(s, a)
    ensures RingMoves(s, a, Apply(s, a))
  {
    if IsClientStep(a) {
      ClientRing(s, a);
    } else if IsSetupStep(a) {
      SetupRing(s, a);
    } else if IsTransferStep(a) {
      TransferFlag(s, a);
    }
  }

  lemma ClientRing(s: State, a: Step)
    requires Enabled(s, a) && IsClientStep(a)
    ensures RingMoves(s, a, Apply(s, a))
  {
  }

  lemma SetupRing(s: State, a: Step)
    requires Enabled(s, a) && IsSetupStep(a)
    ensures RingMoves(s, a, Apply(s, a))
  {
  }

  // ----- every run -----

  lemma {:induction false} RunDoors(s: State, run: seq<Step>)
    requires Inv(s) && Doors(s) && FlagOk(s) && CanRun(s, run)
    ensures var t := Exec(s, run); Inv(t) && Doors(t) && FlagOk(t)
    decreases |run|
  {
    if run != [] {
      StepKeepsInv(s, run[0]);
      StepDoors(s, run[0]);
      StepFlag(s, run[0]);
      RunDoors(Apply(s, run[0]), run[1..]);
    }
  }

  /**
   Over every run: new clients are refused exactly from the decision to close the clients until the
   attempt fails, the listening socket is closed exactly at the end of a successful one, and changes
   are streamed exactly while an attempt is running.
   */
  lemma DoorSafety(s: State, run: seq<Step>)
    requires Open(s) && CanRun(s, run)
    ensures Doors(Exec(s, run)) && FlagOk(Exec(s, run))
  {
    RunDoors(s, run);
  }

  /** A new client is taken exactly then. */
  lemma AcceptIff(s: State, run: seq<Step>, c: nat)
    requires Open(s) && CanRun(s, run)
    ensures var t := Exec(s, run);
            Enabled(t, Accept(c)) <==> c !in t.clients && !t.phase.Closing? && !t.clientsClosed
  {
    RunDoors(s, run);
  }

  /** An attempt can fail whenever it talks to the destination, and then the door is open again at once. */
  lemma FailureReopens(s: State, run: seq<Step>)
    requires Open(s) && CanRun(s, run) && (Exec(s, run).phase.Arming? || Exec(s, run).phase.Sending? || Exec(s, run).phase.Reading?)
    ensures var t := Exec(s, run);
            Enabled(t, Fail) && forall c :: c !in t.clients ==> Enabled(Apply(t, Fail), Accept(c))
  {
    RunDoors(s, run);
    var t := Exec(s, run);
    StepKeepsInv(t, Fail);
    StepDoors(t, Fail);
  }

  /** Between attempts everybody is let in, and no client has to wait for room in the ring. */
  lemma AtRestNobodyWaits(s: State, run: seq<Step>, c: nat)
    requires Open(s) && CanRun(s, run) && Exec(s, run).phase.Resting?
    ensures var t := Exec(s, run);
            && (c !in t.clients ==> Enabled(t, Accept(c)))
            && (c in t.clients && t.clients[c].Storing? && t.clients[c].cur == t.clients[c].hi ==>
                  Enabled(t, PostEvent(c)) && Apply(t, PostEvent(c)).ring == t.ring)
  {
    RunDoors(s, run);
  }

  // ----- what follows the setup of a transfer -----

  /** After the setup (605-627): close the clients, send, or hand over. */
  lemma DecideIff(s: State, converging: bool)
    requires s.phase.Decide?
    ensures var t := Apply(s, DecideNext(converging));
            && (t.phase.Closing? <==> !s.clientsClosed && (converging || !s.phase.next))
            && (t.phase.Sending? <==> s.phase.next && (s.clientsClosed || !converging))
            && (t.phase.Completing? <==> !s.phase.next && s.clientsClosed)
            && (t.allowNew <==> s.allowNew && !t.phase.Closing?)
            && t == s.(allowNew := t.allowNew, phase := t.phase)
  {
  }

  // ----- in pieces of any size -----

  /** Whoever stores, sends, applies or reads may do so in pieces of any size, and break off anywhere before the end. */
  lemma AnyPieces(s: State, c: nat, data: seq<byte>, n: nat)
    requires Inv(s)
    ensures c in s.clients && s.clients[c].Storing? && s.clients[c].cur + |data| <= s.clients[c].hi ==>
              Enabled(s, StoreBytes(c, data)) && (s.clients[c].cur < s.clients[c].hi ==> Enabled(s, Abort(c)))
    ensures s.phase.Sending? && n <= (if s.xfer.written < 28 then 28 else 28 + s.xfer.len) - s.xfer.written ==>
              Enabled(s, MirrorWrite(n))
    ensures s.xfer.Xfer? && s.xfer.applied + n <= |s.xfer.wire| ==> Enabled(s, DestApply(n))
    ensures s.phase.Reading? && s.xfer.acked && 0 < n <= 16 - s.xfer.read ==> Enabled(s, MirrorRead(n))
  {
  }
}
