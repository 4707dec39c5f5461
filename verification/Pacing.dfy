/**
 The bandwidth limit (mirror_should_wait, src/server/mirror.c:332-341), on runs of a migration
 with a clock: the bytes accounted for, the checks after each transfer and while waiting.
 */
module Pacing {
  import opened Bytes
  import opened EventStream
  import opened Wire
  import opened MigrationSteps
  import opened Migration
  import opened Accounting

  /** server_mirror_bps: bytes over seconds begun. */
  function BytesPerSecond(allDirty: nat, ms: nat): nat {
    allDirty / (ms / 1000 + 1)
  }

  /** mirror_should_wait */
  predicate ShouldWait(limit: nat, allDirty: nat, ms: nat, queued: nat) {
    BytesPerSecond(allDirty, ms) > limit && !(queued > STREAM_SIZE / 2)
  }

  /** `all_dirty`, the milliseconds since the migration began, and whether the next transfer is held back. */
  datatype Pace = Pace(allDirty: nat, ms: nat, waiting: bool)

  /** The end of a transfer (586-588): bytes sent while draining are not counted. */
  function Counted(p: Pace, len: nat, clear: bool): Pace {
    p.(allDirty := if clear then p.allDirty else p.allDirty + len)
  }

  /** The check before the next one (633-643), repeated by the limit timer (691-701). */
  function Checked(limit: nat, p: Pace, queued: nat): Pace {
    p.(waiting := ShouldWait(limit, p.allDirty, p.ms, queued))
  }

  /**
   A migration with its pace; `longest` is the longest transfer of the attempt so far, `most` the
   longest the ring has been at a check, and `estimated` says that each decision to close the
   clients or not was the one the estimate calls for.
   */
  datatype Timed = Timed(s: State, p: Pace, longest: nat, most: nat, estimated: bool)

  datatype Move = Wait(ms: nat) | LimitTimer | Act(a: Step)

  /** The step ends a transfer. */
  predicate Ends(s: State, a: Step) {
    a.MirrorRead? && s.xfer.Xfer? && s.xfer.read + a.count == REPLY_SIZE
  }

  /** The step ends mirror_read_cb with another transfer to send. */
  predicate Checks(s: State, a: Step) {
    || (a.DecideNext? && s.phase.Decide? && s.phase.next && !Closes(s, a.converging))
    || (a.JoinClients? && s.phase.Closing? && s.phase.next)
  }

  const CONVERGE_SECS: nat := 5

  /** server_mirror_eta: seconds to go at the rate so far. */
  function Eta(s: State, p: Pace): nat
    requires s.offset <= s.size
  {
    BytesRemaining(s) / (BytesPerSecond(p.allDirty, p.ms) + 1)
  }

  /** A decision that rests on the estimate (605-607) is the one it calls for. */
  predicate AsEstimated(s: State, p: Pace, a: Step) {
    a.DecideNext? && s.phase.Decide? && !s.clientsClosed && s.phase.next && s.offset <= s.size ==>
      (a.converging <==> Eta(s, p) < CONVERGE_SECS)
  }

  predicate CanMove(t: Timed, m: Move) {
    match m
    case Wait(_) => true
    case LimitTimer => t.p.waiting && t.s.phase.Sending?
    case Act(a) => Enabled(t.s, a) && (a.MirrorWrite? ==> !t.p.waiting)
  }

  function Max(a: nat, b: nat): nat {
    if a < b then b else a
  }

  function PaceAfter(limit: nat, s: State, p: Pace, a: Step): Pace {
    if a.StartAttempt? then Pace(0, 0, false)
    else if Ends(s, a) then Counted(p, s.xfer.len, s.clear)
    else if Checks(s, a) then Checked(limit, p, |s.ring|)
    else p
  }

  function Moved(limit: nat, t: Timed, m: Move): Timed
    requires CanMove(t, m)
  {
    match m
    case Wait(ms) => t.(p := t.p.(ms := t.p.ms + ms))
    case LimitTimer => t.(p := Checked(limit, t.p, |t.s.ring|), most := Max(t.most, |t.s.ring|))
    case Act(a) =>
      Timed(Apply(t.s, a), PaceAfter(limit, t.s, t.p, a),
            if a.StartAttempt? then 0 else if Ends(t.s, a) then Max(t.longest, t.s.xfer.len) else t.longest,
            if a.StartAttempt? then 0 else if Checks(t.s, a) then Max(t.most, |t.s.ring|) else t.most,
            a.StartAttempt? || (t.estimated && AsEstimated(t.s, t.p, a)))
  }

  predicate CanGo(limit: nat, t: Timed, moves: seq<Move>)
    decreases |moves|
  {
    moves == [] || (CanMove(t, moves[0]) && CanGo(limit, Moved(limit, t, moves[0]), moves[1..]))
  }

  function Gone(limit: nat, t: Timed, moves: seq<Move>): Timed
    requires CanGo(limit, t, moves)
    decreases |moves|
  {
    if moves == [] then t else Gone(limit, Moved(limit, t, moves[0]), moves[1..])
  }

  /** A server about to be migrated. */
  function AtRest(s: State): Timed {
    Timed(s, Pace(0, 0, false), 0, 0, true)
  }

  // ----- the limit -----

  function Allowance(limit: nat, ms: nat): nat {
    (limit + 1) * (ms / 1000 + 1)
  }

  /** The promise: less than one transfer ahead of the allowance. */
  predicate Within(limit: nat, t: Timed) {
    t.p.allDirty < (limit + 1) * (t.p.ms / 1000 + 1) + t.longest
  }

  /** A transfer has been let go. */
  predicate LetGo(phase: Phase, p: Pace) {
    phase.Reading? || (phase.Sending? && !p.waiting)
  }

  predicate Starting(phase: Phase) {
    phase.Arming? || (phase.Setup? && phase.round.First?)
  }

  /** The promise, sharpened: while a transfer is under way, nothing is ahead at all. */
  predicate Sharp(limit: nat, phase: Phase, p: Pace, longest: nat) {
    && p.allDirty < Allowance(limit, p.ms) + (if LetGo(phase, p) then 0 else longest)
    && (Starting(phase) ==> p.allDirty == 0 && !p.waiting)
  }

  lemma QuotientBound(a: nat, d: nat, m: nat)
    requires 0 < d && a / d <= m
    ensures a < (m + 1) * d
  {
    assert a == d * (a / d) + a % d;
    assert d * (a / d) <= d * m;
  }

  lemma AllowanceGrows(limit: nat, ms: nat, more: nat)
    ensures 0 < Allowance(limit, ms) <= Allowance(limit, ms + more)
  {
    MulGrows(limit + 1, 1, ms / 1000 + 1);
    MulGrows(limit + 1, ms / 1000 + 1, (ms + more) / 1000 + 1);
  }

  lemma MulGrows(k: nat, a: nat, b: nat)
    requires a <= b
    ensures k * a <= k * b
  {
  }

  /** A check that lets go means the allowance is kept. */
  lemma CheckedSharp(limit: nat, p: Pace, longest: nat, queued: nat)
    requires p.allDirty < Allowance(limit, p.ms) + longest && queued <= STREAM_SIZE / 2
    ensures Sharp(limit, Sending, Checked(limit, p, queued), longest)
  {
    if !Checked(limit, p, queued).waiting {
      QuotientBound(p.allDirty, p.ms / 1000 + 1, limit);
    }
  }

  lemma WaitSharp(limit: nat, phase: Phase, p: Pace, longest: nat, ms: nat)
    requires Sharp(limit, phase, p, longest)
    ensures Sharp(limit, phase, p.(ms := p.ms + ms), longest)
  {
    AllowanceGrows(limit, p.ms, ms);
  }

  /** How a step that neither ends a transfer nor checks can change the phase. */
  lemma PhaseMoves(s: State, a: Step)
    requires Enabled(s, a) && !Ends(s, a) && !Checks(s, a) && !a.StartAttempt?
    ensures var q := Apply(s, a).phase;
            && (q.Sending? ==> s.phase.Sending? || s.phase.Arming?)
            && (q.Reading? ==> s.phase.Reading? || s.phase.Sending?)
            && (q.Reading? && s.phase.Sending? ==> a.MirrorWrite?)
            && (Starting(q) ==> Starting(s.phase))
  {
    if IsTransferStep(a) {
      TransferPhase(s, a);
    } else if IsSetupStep(a) {
      SetupPhase(s, a);
    } else if IsClientStep(a) {
      ClientPhase(s, a);
    } else {
      EndingPhase(s, a);
    }
  }

  lemma ClientPhase(s: State, a: Step)
    requires Enabled(s, a) && IsClientStep(a)
    ensures Apply(s, a).phase == s.phase
  {
  }

  lemma TransferPhase(s: State, a: Step)
    requires Enabled(s, a) && IsTransferStep(a) && !Ends(s, a)
    ensures Apply(s, a).phase == s.phase || (a.MirrorWrite? && s.phase.Sending? && Apply(s, a).phase.Reading?)
  {
    match a
    case MirrorWrite(count) => assert Write(s, count).phase.Sending? || Write(s, count).phase.Reading?;
    case DestApply(count) => assert ApplyAtDest(s, count).phase == s.phase;
    case DestAck => assert Ack(s).phase == s.phase;
    case MirrorRead(count) => assert Read(s, count).phase == s.phase;
  }

  lemma SetupPhase(s: State, a: Step)
    requires Enabled(s, a) && IsSetupStep(a) && !a.StartAttempt?
    ensures var q := Apply(s, a).phase;
            && (if a.EnableStream? then s.phase.Arming? && q.Sending? else s.phase.Setup? && !q.Sending? && !q.Reading?)
            && (Starting(q) ==> Starting(s.phase))
  {
  }

  lemma EndingPhase(s: State, a: Step)
    requires Enabled(s, a) && !IsClientStep(a) && !IsSetupStep(a) && !IsTransferStep(a) && !Checks(s, a)
    ensures var q := Apply(s, a).phase; !q.Sending? && !q.Reading? && !Starting(q)
  {
  }

  lemma CheckPhase(s: State, a: Step)
    requires Enabled(s, a) && Checks(s, a)
    ensures Apply(s, a).phase == Sending
  {
  }

  /** A new attempt starts with a clean slate. */
  lemma StartSharp(limit: nat, t: Timed, dst: seq<byte>)
    requires CanMove(t, Act(StartAttempt(dst)))
    ensures SharpAt(limit, Moved(limit, t, Act(StartAttempt(dst))))
  {
    AllowanceGrows(limit, 0, 0);
    assert Apply(t.s, StartAttempt(dst)) == Start(t.s, dst);
  }

  lemma EndSharp(limit: nat, s: State, p: Pace, longest: nat, count: nat)
    requires Enabled(s, MirrorRead(count)) && Ends(s, MirrorRead(count)) && Sharp(limit, s.phase, p, longest)
    ensures Sharp(limit, Read(s, count).phase, Counted(p, s.xfer.len, s.clear), Max(longest, s.xfer.len))
  {
  }

  lemma PlainSharp(limit: nat, s: State, p: Pace, longest: nat, a: Step)
    requires Enabled(s, a) && (a.MirrorWrite? ==> !p.waiting) && Sharp(limit, s.phase, p, longest)
    requires !a.StartAttempt? && !Ends(s, a) && !Checks(s, a)
    ensures Sharp(limit, Apply(s, a).phase, p, longest)
  {
    PhaseMoves(s, a);
    AllowanceGrows(limit, p.ms, 0);
  }

  lemma ActSharp(limit: nat, t: Timed, a: Step)
    requires CanMove(t, Act(a)) && SharpAt(limit, t) && !a.StartAttempt?
    requires Checks(t.s, a) ==> |t.s.ring| <= STREAM_SIZE / 2
    ensures SharpAt(limit, Moved(limit, t, Act(a)))
  {
    if Ends(t.s, a) {
      EndSharp(limit, t.s, t.p, t.longest, a.count);
    } else if Checks(t.s, a) {
      CheckedSharp(limit, t.p, t.longest, |t.s.ring|);
      CheckPhase(t.s, a);
    } else {
      PlainSharp(limit, t.s, t.p, t.longest, a);
    }
  }

  ghost predicate SharpAt(limit: nat, t: Timed) {
    Sharp(limit, t.s.phase, t.p, t.longest)
  }

  /** As long as no check of the attempt found the ring more than half full. */
  ghost predicate SharpIfCalm(limit: nat, t: Timed) {
    t.most <= STREAM_SIZE / 2 ==> SharpAt(limit, t)
  }

  lemma MoveSharp(limit: nat, t: Timed, m: Move)
    requires CanMove(t, m) && SharpIfCalm(limit, t)
    ensures SharpIfCalm(limit, Moved(limit, t, m))
  {
    if Moved(limit, t, m).most <= STREAM_SIZE / 2 {
      match m
      case Wait(ms) => WaitSharp(limit, t.s.phase, t.p, t.longest, ms);
      case LimitTimer => CheckedSharp(limit, t.p, t.longest, |t.s.ring|);
      case Act(a) =>
        if a.StartAttempt? {
          StartSharp(limit, t, a.dst);
        } else {
          ActSharp(limit, t, a);
        }
    }
  }

  lemma {:induction false} RunSharp(limit: nat, t: Timed, moves: seq<Move>)
    requires CanGo(limit, t, moves) && SharpIfCalm(limit, t)
    ensures SharpIfCalm(limit, Gone(limit, t, moves))
    decreases |moves|
  {
    if moves != [] {
      MoveSharp(limit, t, moves[0]);
      RunSharp(limit, Moved(limit, t, moves[0]), moves[1..]);
    }
  }

  /** The rate limit, over every run in which the ring is at most half full at each check. */
  lemma RateLimit(limit: nat, s: State, moves: seq<Move>)
    requires Initial(s) && CanGo(limit, AtRest(s), moves) && Gone(limit, AtRest(s), moves).most <= STREAM_SIZE / 2
    ensures Within(limit, Gone(limit, AtRest(s), moves))
  {
    AllowanceGrows(limit, 0, 0);
    RunSharp(limit, AtRest(s), moves);
  }

  // ----- and no more than the limit -----

  lemma QuotientOver(a: nat, d: nat, m: nat)
    requires 0 < d
    ensures a / d > m <==> a >= (m + 1) * d
  {
    if a / d > m {
      assert a == d * (a / d) + a % d;
      MulGrows(d, m + 1, a / d);
    } else {
      QuotientBound(a, d, m);
    }
  }

  /** A check holds the mirror back exactly if it is over the allowance and the ring at most half full. */
  lemma CheckedIff(limit: nat, p: Pace, queued: nat)
    ensures Checked(limit, p, queued).waiting <==> queued <= 21845 && p.allDirty >= (limit + 1) * (p.ms / 1000 + 1)
    ensures Checked(limit, p, queued) == p.(waiting := Checked(limit, p, queued).waiting)
  {
    QuotientOver(p.allDirty, p.ms / 1000 + 1, limit);
  }

  /** mirror_read_cb ends with the next transfer about to be sent. */
  predicate SendsNext(s: State, a: Step) {
    (a.DecideNext? || a.JoinClients?) && Enabled(s, a) && Apply(s, a).phase.Sending?
  }

  lemma ChecksIff(s: State, a: Step)
    requires Enabled(s, a)
    ensures Checks(s, a) <==> SendsNext(s, a)
  {
    if a.DecideNext? {
      assert Apply(s, a) == DecideOn(s, a.converging);
    } else if a.JoinClients? {
      assert Apply(s, a) == Join(s);
    }
  }

  /** What a step does to the pace, in plain numbers. */
  ghost predicate PacedBy(limit: nat, s: State, p: Pace, a: Step, q: Pace) {
    // a reply is complete: the bytes are accounted for, except while changes go before the scan
    if a.MirrorRead? && s.xfer.Xfer? && s.xfer.read + a.count == 16
    then q == p.(allDirty := p.allDirty + if s.clear then 0 else s.xfer.len)
    else if SendsNext(s, a)
    then q == p.(waiting := |s.ring| <= 21845 && p.allDirty >= (limit + 1) * (p.ms / 1000 + 1))
    else q == if a.StartAttempt? then Pace(0, 0, false) else p
  }

  lemma StepPaced(limit: nat, s: State, p: Pace, a: Step)
    requires Enabled(s, a)
    ensures PacedBy(limit, s, p, a, PaceAfter(limit, s, p, a))
  {
    ChecksIff(s, a);
    CheckedIff(limit, p, |s.ring|);
  }

  /** The same of every move of a timed run. */
  lemma MovedPace(limit: nat, t: Timed, m: Move)
    requires CanMove(t, m)
    ensures var q := Moved(limit, t, m).p;
            match m
            case Wait(ms) => q == t.p.(ms := t.p.ms + ms)
            case LimitTimer => q == t.p.(waiting := |t.s.ring| <= 21845 && t.p.allDirty >= (limit + 1) * (t.p.ms / 1000 + 1))
            case Act(a) => PacedBy(limit, t.s, t.p, a, q)
  {
    match m
    case Wait(_) =>
    case LimitTimer => CheckedIff(limit, t.p, |t.s.ring|);
    case Act(a) => StepPaced(limit, t.s, t.p, a);
  }

  /** After that long any number of bytes is allowed. */
  lemma LongEnough(limit: nat, ms: nat, bytes: nat)
    ensures bytes < (limit + 1) * ((ms + 1000 * bytes) / 1000 + 1)
  {
    assert (ms + 1000 * bytes) / 1000 >= bytes;
    MulGrows((ms + 1000 * bytes) / 1000 + 1, 1, limit + 1);
  }

  /** A mirror that is held back is let go by the timer in the end, and can then send. */
  lemma LetGoInTheEnd(limit: nat, s: State, moves: seq<Move>) returns (ms: nat)
    requires Initial(s) && CanGo(limit, AtRest(s), moves)
    requires Gone(limit, AtRest(s), moves).p.waiting && Gone(limit, AtRest(s), moves).s.phase.Sending?
    ensures var t := Gone(limit, AtRest(s), moves);
            var rested := Moved(limit, t, Wait(ms));
            && CanMove(rested, LimitTimer)
            && var u := Moved(limit, rested, LimitTimer);
               !u.p.waiting && u.s == t.s && CanMove(u, Act(MirrorWrite(1)))
  {
    var t := Gone(limit, AtRest(s), moves);
    ms := 1000 * t.p.allDirty;
    var rested := Moved(limit, t, Wait(ms));
    LongEnough(limit, t.p.ms, t.p.allDirty);
    MovedPace(limit, rested, LimitTimer);
    GoneIsRun(limit, AtRest(s), moves);
  }

  /** Under a timed run lies a run. */
  lemma {:induction false} GoneIsRun(limit: nat, t: Timed, moves: seq<Move>)
    requires CanGo(limit, t, moves) && Inv(t.s)
    ensures Inv(Gone(limit, t, moves).s)
    decreases |moves|
  {
    if moves != [] {
      if moves[0].Act? {
        StepKeepsInv(t.s, moves[0].a);
      }
      GoneIsRun(limit, Moved(limit, t, moves[0]), moves[1..]);
    }
  }

  /**
   Where the estimate is followed, the clients are closed exactly once fewer than five seconds remain at
   the rate so far.
   */
  lemma ClosesByEstimate(s: State, p: Pace, converging: bool)
    requires s.phase.Decide? && s.phase.next && !s.clientsClosed && s.offset <= s.size
    requires AsEstimated(s, p, DecideNext(converging))
    ensures Apply(s, DecideNext(converging)).phase.Closing? <==>
            BytesRemaining(s) < 5 * (p.allDirty / (p.ms / 1000 + 1) + 1)
  {
    var d := BytesPerSecond(p.allDirty, p.ms) + 1;
    QuotientOver(BytesRemaining(s), d, 4);
    assert Apply(s, DecideNext(converging)) == DecideOn(s, converging);
  }

  /** The mirror's side of the limit, as the callbacks update it. */
  class Pacer {
    const limit: nat
    var allDirty: nat
    var waiting: bool

    /** mirror_reset */
    constructor (limit: nat)
      ensures this.limit == limit && At(0) == Pace(0, 0, false)
    {
      this.limit, allDirty, waiting := limit, 0, false;
    }

    function At(ms: nat): Pace
      reads this
    {
      Pace(allDirty, ms, waiting)
    }

    /** The check of mirror_read_cb and mirror_limit_cb. */
    method CheckLimit(ms: nat, queued: nat)
      modifies this`waiting
      ensures At(ms) == Checked(limit, old(At(ms)), queued)
    {
      var bpsOver := BytesPerSecond(allDirty, ms) > limit;
      var streamFull := queued > STREAM_SIZE / 2;
      waiting := bpsOver && !streamFull;
    }

    /** The accounting of mirror_read_cb. */
    method Count(len: nat, clear: bool, ghost ms: nat)
      modifies this`allDirty
      ensures At(ms) == Counted(old(At(ms)), len, clear)
    {
      if !clear {
        allDirty := allDirty + len;
      }
    }
  }
}
