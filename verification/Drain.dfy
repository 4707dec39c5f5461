/**
 Transfer scheduling and the end of a migration: the scan cuts the image into consecutive
 chunks, and once the clients are closed only finitely many transfers remain, after which
 the handover goes through.
 */
module Drain {
  import opened EventStream
  import opened Schedule
  import opened Wire
  import opened MigrationSteps
  import opened Migration

  /** Every reachable transfer is a range of the image, and the scan cuts it up in order, missing nothing. */
  lemma SchedulingSafety(s: State, run: seq<Step>)
    requires Initial(s) && CanRun(s, run)
    ensures var t := Exec(s, run);
            && t.offset <= t.size
            && (t.xfer.Xfer? ==> t.xfer.from + t.xfer.len <= t.size)
            && (Running(t.phase) ==> Partition(t.scans, t.offset))
            && (t.phase == Decide(false) ==> t.offset == t.size && (t.clientsClosed ==> t.ring == []))
            && (Migrated(t.phase) ==> Partition(t.scans, t.size))
  {
    RunKeepsInv(s, run);
  }

  // ----- a bound on the transfers left -----

  /** Bytes the scan has yet to schedule plus events queued or in hand. */
  function Remaining(s: State): nat
    requires s.offset <= s.size
  {
    (s.size - s.offset) + |s.ring| + if s.phase.Setup? && s.phase.last.event == Set then 1 else 0
  }

  /** The step that sets up a transfer. */
  predicate Schedules(s: State, a: Step)
    requires Enabled(s, a)
  {
    a.SetupEnd? && Choose(s.offset, s.size, s.phase.last).Transfer?
  }

  function Scheduled(s: State, run: seq<Step>): nat
    requires CanRun(s, run)
    decreases |run|
  {
    if run == [] then 0
    else (if Schedules(s, run[0]) then 1 else 0) + Scheduled(Apply(s, run[0]), run[1..])
  }

  lemma StepDrains(s: State, a: Step)
    requires Inv(s) && s.clientsClosed && Enabled(s, a) && !a.Fail?
    ensures Inv(Apply(s, a)) && Apply(s, a).clientsClosed
    ensures (if Schedules(s, a) then 1 else 0) + Remaining(Apply(s, a)) <= Remaining(s)
  {
    StepKeepsInv(s, a);
  }

  predicate NoFailure(run: seq<Step>) {
    forall i :: 0 <= i < |run| ==> !run[i].Fail?
  }

  /**
   Once the clients are closed, every transfer set up uses up scan bytes or a queued event:
   an attempt that does not fail sets up at most `Remaining` more.
   */
  lemma {:induction false} DrainBound(s: State, run: seq<Step>)
    requires Inv(s) && s.clientsClosed && CanRun(s, run) && NoFailure(run)
    ensures Exec(s, run).offset <= Exec(s, run).size
    ensures Scheduled(s, run) + Remaining(Exec(s, run)) <= Remaining(s)
    decreases |run|
  {
    if run != [] {
      assert !run[0].Fail?;
      StepDrains(s, run[0]);
      assert forall i :: 0 <= i < |run[1..]| ==> run[1..][i] == run[i + 1];
      DrainBound(Apply(s, run[0]), run[1..]);
    }
  }

  // ----- every step gets closer -----

  function PhaseRank(p: Phase): nat {
    match p
    case Decide(next) => if next then 11 else 5
    case Sending => 10
    case Reading => 9
    case Setup(_, begun, last) => if !begun then 8 else 7
    case Completing => 4
    case Closed => 3
    case _ => 0
  }

  function BytesToGo(x: Xfer): nat {
    if x.Xfer? && x.written <= REQUEST_SIZE + x.len && x.applied <= x.len && x.read <= REPLY_SIZE
    then (REQUEST_SIZE + x.len - x.written) + (x.len - x.applied) + (if x.acked then 0 else 1) + (REPLY_SIZE - x.read)
    else 0
  }

  /** `t` is nearer to the handover than `s`. */
  ghost predicate Closer(s: State, t: State)
    requires s.offset <= s.size && t.offset <= t.size
  {
    || Remaining(t) < Remaining(s)
    || (Remaining(t) == Remaining(s)
        && (|| PhaseRank(t.phase) < PhaseRank(s.phase)
            || (PhaseRank(t.phase) == PhaseRank(s.phase)
                && (|t.ring| < |s.ring| || (|t.ring| == |s.ring| && BytesToGo(t.xfer) < BytesToGo(s.xfer))))))
  }

  /** A step that does nothing: a read or write of no bytes. */
  predicate IsIdle(a: Step) {
    (a.MirrorWrite? && a.count == 0) || (a.DestApply? && a.count == 0)
  }

  ghost predicate Progresses(s: State, a: Step)
    requires Enabled(s, a)
  {
    && Inv(s) && Inv(Apply(s, a))
    && Apply(s, a).clientsClosed && Running(Apply(s, a).phase) && Closer(s, Apply(s, a))
  }

  lemma SetupProgress(s: State, a: Step)
    requires Inv(s) && s.clientsClosed && Running(s.phase) && Enabled(s, a) && (a.SetupBegin? || a.SetupDequeue? || a.SetupEnd?)
    ensures Progresses(s, a)
  {
    StepKeepsInv(s, a);
  }

  lemma TransferProgress(s: State, a: Step)
    requires Inv(s) && s.clientsClosed && Running(s.phase) && Enabled(s, a) && IsTransferStep(a) && !IsIdle(a)
    ensures Progresses(s, a)
  {
    StepKeepsInv(s, a);
  }

  lemma EndProgress(s: State, a: Step)
    requires Inv(s) && s.clientsClosed && Running(s.phase) && Enabled(s, a)
    requires a.DecideNext? || a.ServerCloses? || a.SendDisconnect?
    ensures Progresses(s, a)
  {
    StepKeepsInv(s, a);
  }

  /** Once the clients are closed nobody but the mirror and the destination can take a step. */
  lemma WhoCanStep(s: State, a: Step)
    requires Inv(s) && s.clientsClosed && Running(s.phase) && Enabled(s, a) && !a.Fail?
    ensures a.SetupBegin? || a.SetupDequeue? || a.SetupEnd? || IsTransferStep(a)
            || a.DecideNext? || a.ServerCloses? || a.SendDisconnect?
  {
  }

  /** Every step that does something, other than failing, gets closer to the handover. */
  lemma EveryStepCloser(s: State, a: Step)
    requires Inv(s) && s.clientsClosed && Running(s.phase) && Enabled(s, a) && !a.Fail? && !IsIdle(a)
    ensures Progresses(s, a)
  {
    WhoCanStep(s, a);
    if a.SetupBegin? || a.SetupDequeue? || a.SetupEnd? {
      SetupProgress(s, a);
    } else if IsTransferStep(a) {
      TransferProgress(s, a);
    } else {
      EndProgress(s, a);
    }
  }

  /** And until the handover there is such a step. */
  function NextStep(s: State): Step {
    match s.phase
    case Setup(_, begun, last) =>
      if !begun then SetupBegin
      else if Draining(s.offset, s.size, s.clear, last) && s.ring != [] then SetupDequeue(|s.ring|) else SetupEnd
    case Sending => MirrorWrite(if s.xfer.Xfer? && s.xfer.written <= REQUEST_SIZE + s.xfer.len then ToWrite(s.xfer) else 0)
    case Reading =>
      if s.xfer.NoXfer? then DestAck
      else if s.xfer.applied < |s.xfer.wire| then DestApply(|s.xfer.wire| - s.xfer.applied)
      else if !s.xfer.acked then DestAck
      else MirrorRead(if s.xfer.read < REPLY_SIZE then REPLY_SIZE - s.xfer.read else 1)
    case Decide(_) => DecideNext(false)
    case Completing => ServerCloses
    case _ => SendDisconnect(MIRROR_HANDLE)
  }

  lemma NotStuck(s: State)
    requires Inv(s) && s.clientsClosed && Running(s.phase) && !s.phase.Done?
    ensures Enabled(s, NextStep(s)) && !NextStep(s).Fail? && !IsIdle(NextStep(s))
  {
  }

  // ----- and the handover is reached -----

  /** Who moves next is anybody's choice, as long as somebody who can does something. */
  ghost predicate KeepsGoing(choose: State -> Step) {
    forall s :: Inv(s) && s.clientsClosed && Running(s.phase) && !s.phase.Done? ==>
      Enabled(s, choose(s)) && !choose(s).Fail? && !IsIdle(choose(s))
  }

  ghost predicate Follows(s: State, run: seq<Step>, choose: State -> Step)
    decreases |run|
  {
    run == [] || (Enabled(s, run[0]) && run[0] == choose(s) && Follows(Apply(s, run[0]), run[1..], choose))
  }

  /**
   Convergence: from any reachable point after the clients are closed, whoever moves next at
   each turn, the handover is reached unless a step fails.
   */
  lemma {:induction false} Converges(s: State, choose: State -> Step) returns (run: seq<Step>)
    requires Inv(s) && s.clientsClosed && Running(s.phase) && KeepsGoing(choose)
    ensures CanRun(s, run) && Follows(s, run, choose) && Exec(s, run).phase.Done?
    decreases Remaining(s), PhaseRank(s.phase), |s.ring|, BytesToGo(s.xfer)
  {
    if s.phase.Done? {
      run := [];
    } else {
      var a := choose(s);
      EveryStepCloser(s, a);
      var rest := Converges(Apply(s, a), choose);
      Prepend(s, a, rest);
      run := [a] + rest;
      assert run[1..] == rest;
    }
  }

  /** There is such a choice. */
  lemma SomebodyKeepsGoing()
    ensures KeepsGoing((s: State) => NextStep(s))
  {
    forall s | Inv(s) && s.clientsClosed && Running(s.phase) && !s.phase.Done?
      ensures Enabled(s, NextStep(s)) && !NextStep(s).Fail? && !IsIdle(NextStep(s))
    {
      NotStuck(s);
    }
  }
}
