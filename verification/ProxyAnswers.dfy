/**
 Which requests the proxy can answer: all but reads that run off the end of the disk, for it
 waits for their data although the server sends none (src/proxy/proxy.c:650-653).
 */
module ProxyAnswers {
  import opened Bytes
  import opened Wire
  import opened NaiveDisk
  import opened ProxyCode
  import opened ProxySystem
  import opened ProxySafety
  import opened ProxyUpstream
  import opened ProxyRefinement
  import opened ProxyProgress

  /** A read of some bytes that the server refuses. */
  predicate Hopeless(size: nat, r: Request) {
    r.typ == REQUEST_READ && r.len > 0 && r.from + r.len > size
  }

  // ----- one attempt at the request in hand -----

  /** The proxy at a given point of an attempt, with the request it started with. */
  ghost predicate Attempt(s: Sys, state: ProxyState, x: Exchange) {
    Full(s) && s.p.state == state && s.w.cur == x
  }

  lemma GiveUp(s: Sys)
    requires Full(s) && IsUpstreamState(s.p.state)
    ensures Enabled(s, TimeOut) && Attempt(Apply(s, TimeOut), ConnectToUpstream, s.w.cur)
  {
    StepKeeps(s, TimeOut);
  }

  lemma Reconnect(s: Sys, x: Exchange)
    requires Attempt(s, ConnectToUpstream, x)
    ensures Enabled(s, ConnectSucceeds)
    ensures var t := Apply(s, ConnectSucceeds); Attempt(t, ReadInitFromUpstream, x) && t.p.init.needle == 0
  {
    StepKeeps(s, ConnectSucceeds);
  }

  lemma GreetingComes(s: Sys)
    requires Inv(s) && s.p.state.ReadInitFromUpstream? && s.p.init.needle == 0
    ensures Enabled(s, InitRead(INIT_SIZE)) && s.p.init.Done() == [] && s.w.conn.outbox[..INIT_SIZE] == s.w.hello
  {
    assert s.p.init.Done() == [];
    assert s.w.conn.outbox == s.w.hello;
  }

  lemma Greet(s: Sys, x: Exchange)
    requires Attempt(s, ReadInitFromUpstream, x) && s.p.init.needle == 0
    ensures Enabled(s, InitRead(INIT_SIZE))
    ensures var t := Apply(s, InitRead(INIT_SIZE)); Attempt(t, WriteToUpstream, x) && t.p.req.needle == 0
  {
    GreetingComes(s);
    assert [] + s.w.hello == s.w.hello;
    InitComplete(s.p, s.w.hello, |s.w.disk|, s.w.hello);
    StepKeeps(s, InitRead(INIT_SIZE));
  }

  lemma Resend(s: Sys, x: Exchange)
    requires Attempt(s, WriteToUpstream, x) && s.p.req.needle == 0
    ensures var a := UpWrite(REQUEST_SIZE + |x.payload|);
            && Enabled(s, a) && Attempt(Apply(s, a), ReadFromUpstream, x)
            && Apply(s, a).w.conn == Conn(s.w.queued, [])
  {
    assert |s.p.req.All()| == s.p.req.size;
    assert s.p.req.buf[..s.p.req.size] == s.w.queued;
    assert [] + s.w.queued == s.w.queued;
    StepKeeps(s, UpWrite(REQUEST_SIZE + |x.payload|));
  }

  lemma AllSent(s: Sys)
    requires Full(s) && s.p.state.ReadFromUpstream? && s.w.conn == Conn(s.w.queued, [])
    ensures |s.p.reqHdr.handle| == 8 && s.p.rsp.needle == 0 && Enabled(s, ServerAnswers)
  {
    SentIsRequest(s);
    ArrivedPrefix(Sent(s.p, s.w.cur), s.w.queued);
    assert |s.w.queued| > 0;
  }

  lemma WholeArrived(s: Sys)
    requires Full(s) && s.p.state.ReadFromUpstream? && s.w.conn == Conn(s.w.queued, []) && |s.p.reqHdr.handle| == 8
    requires Enabled(s, ServerAnswers)
    ensures AfterServerAnswers(s).w.conn == Conn([], ReplyBytes(s.w.refDisk, s.p.reqHdr))
    ensures AfterServerAnswers(s) == s.(w := AfterServerAnswers(s).w) && AfterServerAnswers(s).w.refDisk == s.w.refDisk
    ensures AfterServerAnswers(s).w.cur == s.w.cur
  {
    AnswerEffect(s);
    assert [] + ReplyBytes(s.w.refDisk, s.p.reqHdr) == ReplyBytes(s.w.refDisk, s.p.reqHdr);
  }

  /** The whole reply is on its way. */
  ghost predicate Replying(s: Sys, x: Exchange) {
    && Attempt(s, ReadFromUpstream, x) && |s.p.reqHdr.handle| == 8
    && s.w.conn == Conn([], ReplyBytes(s.w.refDisk, s.p.reqHdr)) && s.p.rsp.needle == 0
  }

  lemma Answer(s: Sys, x: Exchange)
    requires Attempt(s, ReadFromUpstream, x) && s.w.conn == Conn(s.w.queued, [])
    ensures Enabled(s, ServerAnswers) && Replying(Apply(s, ServerAnswers), x)
  {
    AllSent(s);
    WholeArrived(s);
    StepKeeps(s, ServerAnswers);
  }

  /** What a read of the reply does, short of the cache. */
  lemma ReadsReply(s: Sys, count: nat, q: Proxy)
    requires Full(s) && MayReadReply(s, count) && q == ReadUpstream(s.p, Got(s.w.conn.outbox[..count]))
    ensures Enabled(s, UpRead(count))
    ensures ReplySize(s.p.reqHdr) == s.p.rsp.needle + count <==> q.state.WriteToDownstream?
    ensures !q.state.WriteToDownstream? ==> q.state.ReadFromUpstream? && q.rsp.needle == s.p.rsp.needle + count
    ensures !q.state.WriteToDownstream? && q.rsp.needle >= REPLY_SIZE ==> q.rsp.size == ReplySize(s.p.reqHdr)
  {
    UpReadKeeps(s, count);
    ReplyComes(s, count);
    assert |s.p.rsp.Done() + s.w.conn.outbox[..count]| == s.p.rsp.needle + count;
  }

  lemma TurnState(p: Proxy, input: Input)
    requires CanRead(p.rsp, REPLY_SIZE, input) && ReplyReady(ReadUpstream(p, input))
    ensures TurnReadUpstream(p, input).state == ReadUpstream(p, input).state
    ensures ReadUpstream(p, input).state.ReadFromUpstream? ==> TurnReadUpstream(p, input) == ReadUpstream(p, input)
  {
  }

  lemma ReadHeader(s: Sys, x: Exchange)
    requires Replying(s, x)
    ensures Enabled(s, UpRead(REPLY_SIZE))
    ensures var t := Apply(s, UpRead(REPLY_SIZE));
            && t.w.cur == x && Full(t)
            && if ReplySize(s.p.reqHdr) == REPLY_SIZE then t.p.state.WriteToDownstream?
               else && t.p.state.ReadFromUpstream? && t.p.reqHdr == s.p.reqHdr && |t.p.reqHdr.handle| == 8
                    && t.p.rsp.needle == REPLY_SIZE && t.p.rsp.size == ReplySize(s.p.reqHdr)
                    && t.w.conn == Conn([], ReplyBytes(t.w.refDisk, s.p.reqHdr)[REPLY_SIZE..])
  {
    var data := s.w.conn.outbox[..REPLY_SIZE];
    ReadsReply(s, REPLY_SIZE, ReadUpstream(s.p, Got(data)));
    TurnState(s.p, Got(data));
    StepKeeps(s, UpRead(REPLY_SIZE));
    ReplyComes(s, REPLY_SIZE);
  }

  lemma FullReply(disk: seq<byte>, r: Request)
    requires |r.handle| == 8 && r.magic == REQUEST_MAGIC && !Hopeless(|disk|, r)
    ensures |ReplyBytes(disk, r)| == ReplySize(r)
  {
  }

  lemma ReadData(s: Sys, x: Exchange)
    requires Attempt(s, ReadFromUpstream, x) && |s.p.reqHdr.handle| == 8
    requires s.p.rsp.needle == REPLY_SIZE < ReplySize(s.p.reqHdr) == s.p.rsp.size
    requires s.w.conn == Conn([], ReplyBytes(s.w.refDisk, s.p.reqHdr)[REPLY_SIZE..])
    requires s.p.reqHdr.magic == REQUEST_MAGIC && !Hopeless(|s.w.refDisk|, s.p.reqHdr)
    ensures var a := UpRead(s.p.reqHdr.len);
            Enabled(s, a) && Apply(s, a).p.state.WriteToDownstream? && Apply(s, a).w.cur == x && Full(Apply(s, a))
  {
    FullReply(s.w.refDisk, s.p.reqHdr);
    var data := s.w.conn.outbox[..s.p.reqHdr.len];
    ReadsReply(s, s.p.reqHdr.len, ReadUpstream(s.p, Got(data)));
    TurnState(s.p, Got(data));
    StepKeeps(s, UpRead(s.p.reqHdr.len));
  }

  // ----- putting the steps together -----

  /** Some run ends with the reply delivered and the proxy back at its client, nothing more having been read. */
  ghost predicate CanAnswer(s: Sys) {
    exists run :: CanRun(s, run) && Exec(s, run).p.state.ReadFromDownstream? && Exec(s, run).w.taken == s.w.taken
  }

  lemma StepBack(s: Sys, a: Step)
    requires Enabled(s, a) && CanAnswer(Apply(s, a)) && Apply(s, a).w.taken == s.w.taken
    ensures CanAnswer(s)
  {
    var t := Apply(s, a);
    var run :| CanRun(t, run) && Exec(t, run).p.state.ReadFromDownstream? && Exec(t, run).w.taken == t.w.taken;
    var whole := [a] + run;
    assert whole[0] == a && whole[1..] == run;
    assert CanRun(s, whole) && Exec(s, whole) == Exec(t, run);
  }

  lemma SendsReply(s: Sys)
    requires Full(s) && s.p.state.WriteToDownstream?
    ensures CanAnswer(s)
  {
    var a := DownWrite(s.p.rsp.Left());
    var t := Apply(s, a);
    assert CanRun(t, []) && Exec(t, []) == t;
    StepBack(s, a);
  }

  lemma ReadsAll(s: Sys, x: Exchange)
    requires Replying(s, x) && s.p.reqHdr.magic == REQUEST_MAGIC && !Hopeless(|s.w.refDisk|, s.p.reqHdr)
    ensures CanAnswer(s)
  {
    ReadHeader(s, x);
    var t := Apply(s, UpRead(REPLY_SIZE));
    if t.p.state.WriteToDownstream? {
      SendsReply(t);
    } else {
      var a := UpRead(t.p.reqHdr.len);
      ReadData(t, x);
      SendsReply(Apply(t, a));
      StepBack(t, a);
    }
    StepBack(s, UpRead(REPLY_SIZE));
  }

  lemma HeaderInHand(s: Sys)
    requires Full(s) && IsUpstreamState(s.p.state) && !Hopeless(|s.w.disk|, s.w.cur.r)
    ensures s.p.reqHdr.magic == REQUEST_MAGIC && !Hopeless(|s.w.refDisk|, s.p.reqHdr) && |s.w.refDisk| == |s.w.disk|
  {
  }

  lemma AnswersSent(s: Sys, x: Exchange)
    requires Attempt(s, WriteToUpstream, x) && s.p.req.needle == 0 && !Hopeless(|s.w.disk|, x.r)
    ensures CanAnswer(s)
  {
    Resend(s, x);
    var a := UpWrite(REQUEST_SIZE + |x.payload|);
    var t := Apply(s, a);
    Answer(t, x);
    var u := Apply(t, ServerAnswers);
    HeaderInHand(u);
    ReadsAll(u, x);
    StepBack(t, ServerAnswers);
    StepBack(s, a);
  }

  lemma AnswersAfterConnecting(s: Sys, x: Exchange)
    requires Attempt(s, ConnectToUpstream, x) && !Hopeless(|s.w.disk|, x.r)
    ensures CanAnswer(s)
  {
    Reconnect(s, x);
    var t := Apply(s, ConnectSucceeds);
    Greet(t, x);
    AnswersSent(Apply(t, InitRead(INIT_SIZE)), x);
    StepBack(t, InitRead(INIT_SIZE));
    StepBack(s, ConnectSucceeds);
  }

  lemma Answers(s: Sys)
    requires Full(s) && IsUpstreamState(s.p.state) && !Hopeless(|s.w.disk|, s.w.cur.r)
    ensures CanAnswer(s)
  {
    GiveUp(s);
    AnswersAfterConnecting(Apply(s, TimeOut), s.w.cur);
    StepBack(s, TimeOut);
  }

  // ----- reads off the end -----

  ghost predicate Waiting(s: Sys) {
    Full(s) && IsUpstreamState(s.p.state) && Hopeless(|s.w.disk|, s.w.cur.r)
  }

  lemma NeverWhole(s: Sys, count: nat)
    requires Waiting(s) && Enabled(s, UpRead(count))
    ensures IsUpstreamState(AfterUpRead(s, count).p.state)
  {
    var out := s.w.conn.outbox;
    ReplyComes(s, count);
    var q := ReadUpstream(s.p, Got(out[..count]));
    if q.state.WriteToDownstream? {
      WholeReply(s.w.refDisk, s.p.reqHdr, q.rsp.All(), []);
      assert false;
    }
  }

  lemma OtherStepsStayUpstream(s: Sys, a: Step)
    requires IsUpstreamState(s.p.state) && Enabled(s, a) && !a.UpRead?
    ensures IsUpstreamState(Apply(s, a).p.state) && |Apply(s, a).w.disk| == |s.w.disk|
  {
  }

  lemma KeepsWaiting(s: Sys, a: Step)
    requires Waiting(s) && Enabled(s, a)
    ensures Waiting(Apply(s, a))
  {
    if a.UpRead? {
      NeverWhole(s, a.count);
    } else {
      OtherStepsStayUpstream(s, a);
    }
    StepHolds(s, a);
    StepKeeps(s, a);
  }

  /** A read off the end is never answered, whatever happens; the proxy tries for ever. */
  lemma {:induction false} WaitsForEver(s: Sys, run: seq<Step>)
    requires Waiting(s) && CanRun(s, run)
    ensures Waiting(Exec(s, run))
    decreases |run|
  {
    if run != [] {
      KeepsWaiting(s, run[0]);
      WaitsForEver(Apply(s, run[0]), run[1..]);
    }
  }

  /** A request in hand can still be answered, from any reachable state, exactly when it is not a read off the end. */
  lemma AnswerableIff(s0: Sys, run: seq<Step>, s: Sys)
    requires Reachable(s0, run, s) && IsUpstreamState(s.p.state)
    ensures CanAnswer(s) <==> !Hopeless(|s.w.disk|, s.w.cur.r)
  {
    ReachableFull(s0, run, s);
    if !Hopeless(|s.w.disk|, s.w.cur.r) {
      Answers(s);
    } else {
      forall more | CanRun(s, more) ensures !Exec(s, more).p.state.ReadFromDownstream? {
        WaitsForEver(s, more);
      }
    }
  }
}
