/**
 Bytes remaining, the figure a mirror reports and steers by (server_mirror_bytes_remaining,
 src/server/serve.c:890-904), over whole runs of a migration.
 */
module Accounting {
  import opened EventStream
  import opened Schedule
  import opened MigrationSteps

  /** server_mirror_bytes_remaining, while mirroring. */
  function BytesRemaining(s: State): nat
    requires s.offset <= s.size
  {
    QueuedBytes(s.ring, Set) + (s.size - s.offset)
  }

  lemma {:induction false} QueuedNoneIff(q: seq<Entry>)
    ensures QueuedBytes(q, Set) == 0 <==> forall i :: 0 <= i < |q| && q[i].event == Set ==> q[i].len == 0
    decreases |q|
  {
    if q != [] {
      QueuedNoneIff(q[1..]);
      assert forall i :: 0 < i < |q| ==> q[1..][i - 1] == q[i];
    }
  }

  /** Nothing remains exactly when the scan is over and no queued change names a byte. */
  lemma NothingRemainsIff(s: State)
    requires s.offset <= s.size
    ensures BytesRemaining(s) == 0 <==>
            s.offset == s.size && forall i :: 0 <= i < |s.ring| && s.ring[i].event == Set ==> s.ring[i].len == 0
  {
    QueuedNoneIff(s.ring);
  }

  /** The event taken off the ring for the transfer being set up. */
  function TakenBytes(s: State): nat {
    if s.phase.Setup? && s.phase.last.event == Set then s.phase.last.len else 0
  }

  /** Bytes that a step makes the mirror owe: a change posted, or a scan begun again. */
  function Incurred(s: State, a: Step): nat
    requires Enabled(s, a)
  {
    match a
    case PostEvent(c) => if s.streaming then s.clients[c].hi - s.clients[c].lo else 0
    case StartAttempt(_) => s.offset
    case _ => 0
  }

  /** Bytes that a step schedules for transfer. */
  function Scheduled(s: State, a: Step): nat
    requires Enabled(s, a)
  {
    if a.SetupEnd? && Choose(s.offset, s.size, s.phase.last).Transfer?
    then Choose(s.offset, s.size, s.phase.last).len else 0
  }

  function AllIncurred(s: State, run: seq<Step>): nat
    requires CanRun(s, run)
    decreases |run|
  {
    if run == [] then 0 else Incurred(s, run[0]) + AllIncurred(Apply(s, run[0]), run[1..])
  }

  function AllScheduled(s: State, run: seq<Step>): nat
    requires CanRun(s, run)
    decreases |run|
  {
    if run == [] then 0 else Scheduled(s, run[0]) + AllScheduled(Apply(s, run[0]), run[1..])
  }

  lemma PopBytes(ring: seq<Entry>)
    requires ring != []
    ensures QueuedBytes(ring, Set) == QueuedBytes(ring[1..], Set) + if ring[0].event == Set then ring[0].len else 0
  {
  }

  /** What is owed changes by what a step incurs and schedules. */
  ghost predicate Balanced(s: State, a: Step)
    requires Enabled(s, a) && s.offset <= s.size && Apply(s, a).offset <= Apply(s, a).size
  {
    BytesRemaining(Apply(s, a)) + TakenBytes(Apply(s, a)) + Scheduled(s, a)
    == BytesRemaining(s) + TakenBytes(s) + Incurred(s, a)
  }

  lemma DequeueBalances(s: State, events: nat)
    requires Enabled(s, SetupDequeue(events)) && s.offset <= s.size
    ensures Balanced(s, SetupDequeue(events))
  {
    PopBytes(s.ring);
  }

  lemma EndWithEvent(s: State)
    requires Enabled(s, SetupEnd) && s.offset <= s.size && s.phase.last.event == Set
    ensures Balanced(s, SetupEnd)
  {
    assert End(s).offset == s.offset;
  }

  lemma EndWithScan(s: State)
    requires Enabled(s, SetupEnd) && s.offset < s.size && s.phase.last.event != Set
    ensures End(s).offset <= s.size && Balanced(s, SetupEnd)
  {
    assert End(s).offset == s.offset + ScanLength(s.offset, s.size);
  }

  lemma EndWithNothing(s: State)
    requires Enabled(s, SetupEnd) && s.offset == s.size && s.phase.last.event != Set
    ensures Balanced(s, SetupEnd)
  {
    assert End(s).offset == s.offset;
  }

  lemma EndBalances(s: State)
    requires Enabled(s, SetupEnd) && s.offset <= s.size
    ensures End(s).offset <= s.size && Balanced(s, SetupEnd)
  {
    if s.phase.last.event == Set {
      EndWithEvent(s);
    } else if s.offset < s.size {
      EndWithScan(s);
    } else {
      EndWithNothing(s);
    }
  }

  lemma PostBalances(s: State, a: Step)
    requires Enabled(s, a) && s.offset <= s.size && (a.PostEvent? || a.EnableStream? || a.DisableStream?)
    ensures Balanced(s, a)
  {
    match a {
      case PostEvent(c) => QueuedBytesAppend(s.ring, Entry(Set, s.clients[c].lo, s.clients[c].hi - s.clients[c].lo), Set);
      case EnableStream => QueuedBytesAppend(s.ring, Entry(On, 0, s.size), Set);
      case DisableStream => QueuedBytesAppend(s.ring, Entry(Off, 0, s.size), Set);
    }
  }

  /** The steps that touch neither the ring nor what was taken off it. */
  predicate IsPlain(a: Step) {
    !a.SetupDequeue? && !a.SetupEnd? && !a.PostEvent? && !a.EnableStream? && !a.DisableStream?
  }

  ghost predicate SameBooks(s: State, t: State) {
    t.ring == s.ring && t.size == s.size && t.offset == s.offset && TakenBytes(t) == TakenBytes(s)
  }

  lemma ClientFrame(s: State, a: Step)
    requires Enabled(s, a) && (a.Accept? || a.ClientExit? || a.BeginPiece?)
    ensures SameBooks(s, Apply(s, a))
  {
  }

  lemma WritingFrame(s: State, a: Step)
    requires Enabled(s, a) && (a.StoreBytes? || a.Abort?)
    ensures SameBooks(s, Apply(s, a))
  {
  }

  lemma TransferFrame(s: State, a: Step)
    requires Enabled(s, a) && (a.SetupBegin? || a.MirrorWrite? || a.DestApply? || a.DestAck?)
    ensures SameBooks(s, Apply(s, a))
  {
    match a
    case SetupBegin => assert SameBooks(s, Begin(s));
    case MirrorWrite(count) => assert SameBooks(s, Write(s, count));
    case DestApply(count) => assert SameBooks(s, ApplyAtDest(s, count));
    case DestAck => assert SameBooks(s, Ack(s));
  }

  lemma DecidingFrame(s: State, a: Step)
    requires Enabled(s, a) && (a.MirrorRead? || a.DecideNext? || a.JoinClients?)
    ensures SameBooks(s, Apply(s, a))
  {
    match a
    case MirrorRead(count) => assert SameBooks(s, Read(s, count));
    case DecideNext(converging) => assert SameBooks(s, DecideOn(s, converging));
    case JoinClients => assert SameBooks(s, Join(s));
  }

  lemma EndingFrame(s: State, a: Step)
    requires Enabled(s, a) && (a.ServerCloses? || a.SendDisconnect? || a.Fail?)
    ensures SameBooks(s, Apply(s, a))
  {
  }

  lemma PlainFrame(s: State, a: Step)
    requires Enabled(s, a) && IsPlain(a) && !a.StartAttempt?
    ensures SameBooks(s, Apply(s, a))
  {
    if a.Accept? || a.ClientExit? || a.BeginPiece? {
      ClientFrame(s, a);
    } else if a.StoreBytes? || a.Abort? {
      WritingFrame(s, a);
    } else if a.MirrorRead? || a.DecideNext? || a.JoinClients? {
      DecidingFrame(s, a);
    } else if a.ServerCloses? || a.SendDisconnect? || a.Fail? {
      EndingFrame(s, a);
    } else {
      TransferFrame(s, a);
    }
  }

  lemma PlainBalances(s: State, a: Step)
    requires Enabled(s, a) && IsPlain(a) && s.offset <= s.size
    ensures Apply(s, a).offset <= Apply(s, a).size && Balanced(s, a)
  {
    if !a.StartAttempt? {
      PlainFrame(s, a);
      assert Scheduled(s, a) == 0 && Incurred(s, a) == 0;
    }
  }

  lemma StepBalances(s: State, a: Step)
    requires Enabled(s, a) && s.offset <= s.size
    ensures Apply(s, a).offset <= Apply(s, a).size && Balanced(s, a)
  {
    if a.SetupDequeue? {
      DequeueBalances(s, a.events);
    } else if a.SetupEnd? {
      EndBalances(s);
    } else if a.PostEvent? || a.EnableStream? || a.DisableStream? {
      PostBalances(s, a);
    } else {
      PlainBalances(s, a);
    }
  }

  /**
   Over every run, bytes remaining is exactly what was owed, plus what clients and restarts
   added, less what was scheduled; it never goes below zero.
   */
  lemma {:induction false} RemainingIsExact(s: State, run: seq<Step>)
    requires s.offset <= s.size && CanRun(s, run)
    ensures Exec(s, run).offset <= Exec(s, run).size
    ensures BytesRemaining(Exec(s, run)) + TakenBytes(Exec(s, run)) + AllScheduled(s, run)
            == BytesRemaining(s) + TakenBytes(s) + AllIncurred(s, run)
    decreases |run|
  {
    if run != [] {
      StepBalances(s, run[0]);
      RemainingIsExact(Apply(s, run[0]), run[1..]);
    }
  }
}
