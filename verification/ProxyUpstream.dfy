/**
 The upstream half of the proxy: connecting, resending, and the server at the other end.
 */
module ProxyUpstream {
  import opened Bytes
  import opened Wire
  import opened NaiveDisk
  import opened ProxyCode
  import opened ProxySystem
  import opened ProxySafety

  // ----- connecting -----

  /** The upstream server's greeting announces its disk. */
  ghost predicate HelloOk(s: Sys) {
    && s.w.hello == EncodeHello(|s.w.disk|, s.p.upstreamFlags)
    && |s.w.disk| < Pow256(8) && s.p.upstreamFlags < Pow256(4)
  }

  lemma NewSessionKeeps(s: Sys)
    requires Inv(s) && HelloOk(s) && Enabled(s, NewSession)
    ensures Inv(AfterNewSession(s))
  {
    var t := AfterNewSession(s);
    HelloInBuffer(s.p.rsp.buf, s.w.hello);
    assert t.p.rsp.Done() == [];
  }

  lemma HelloInBuffer(buf: seq<byte>, hello: seq<byte>)
    requires |hello| == INIT_SIZE <= |buf|
    ensures Splice(buf, 0, hello)[..INIT_SIZE] == hello
  {
  }

  lemma ConnectKeeps(s: Sys)
    requires Inv(s) && Enabled(s, ConnectSucceeds)
    ensures Inv(AfterConnect(s))
  {
    assert AfterConnect(s).p.init.Done() + s.w.hello == s.w.hello;
  }

  /** All that losing a connection can change. */
  ghost predicate Loses(s: Sys, t: Sys) {
    && t.p == s.p.(state := ConnectToUpstream, init := t.p.init, rsp := t.p.rsp)
    && BufOk(t.p.init, INIT_SIZE) && BufOk(t.p.rsp, RSP_CAPACITY)
    && (t.w == s.w || t.w == s.w.(conn := NoConn))
  }

  lemma LostKeeps(s: Sys, t: Sys)
    requires Inv(s) && IsUpstreamState(s.p.state) && Loses(s, t)
    ensures Inv(t)
  {
    assert Pending(t);
    assert s.p.state.WriteToUpstream? ==> s.p.req.Done() <= s.p.req.All();
  }

  predicate IsLoss(a: Step) {
    a.ConnectFails? || a.InitReadFails? || a.UpWriteFails? || a.UpReadFails? || a.TimeOut?
  }

  lemma LossLoses(s: Sys, a: Step)
    requires Enabled(s, a) && IsLoss(a) && BufOk(s.p.init, INIT_SIZE) && BufOk(s.p.rsp, RSP_CAPACITY)
    ensures IsUpstreamState(s.p.state) && Loses(s, Apply(s, a))
  {
  }

  /** Losing the connection, by an error, a time-out or a failed attempt, loses only the connection. */
  lemma LossKeeps(s: Sys, a: Step)
    requires Inv(s) && Enabled(s, a) && IsLoss(a)
    ensures Inv(Apply(s, a))
  {
    var t := Apply(s, a);
    LossLoses(s, a);
    LostKeeps(s, t);
  }

  lemma InitComplete(p: Proxy, hello: seq<byte>, size: nat, data: seq<byte>)
    requires BufOk(p.init, INIT_SIZE) && CanRead(p.init, INIT_SIZE, Got(data))
    requires hello == EncodeHello(size, p.upstreamFlags) && size < Pow256(8) && p.upstreamFlags < Pow256(4)
    requires p.init.Done() + data == hello
    ensures var init := IobufRead(p.init, INIT_SIZE, Got(data));
            && ReadInit(p, Got(data)) == p.(init := init.(needle := 0), upstreamSize := size, state := WriteToUpstream)
            && BufOk(init, INIT_SIZE)
  {
    ReadGrows(p.init, INIT_SIZE, INIT_SIZE, data);
    var init := IobufRead(p.init, INIT_SIZE, Got(data));
    assert init.buf == init.Done() == hello;
    HelloRoundTrip(size, p.upstreamFlags);
  }

  /** The greeting so far, and what is still to come. */
  lemma GreetingSplit(s: Sys, count: nat)
    requires Inv(s) && Enabled(s, InitRead(count))
    ensures var out := s.w.conn.outbox;
            var init := IobufRead(s.p.init, INIT_SIZE, Got(out[..count]));
            && BufOk(init, INIT_SIZE) && init.needle == s.p.init.needle + count && init.size == INIT_SIZE
            && init.Done() == s.p.init.Done() + out[..count] && init.Done() + out[count..] == s.w.hello
            && (init.needle == INIT_SIZE ==> out[count..] == [] && s.p.init.Done() + out[..count] == s.w.hello)
  {
    var out := s.w.conn.outbox;
    var data := out[..count];
    ReadGrows(s.p.init, INIT_SIZE, INIT_SIZE, data);
    assert out == data + out[count..];
    Regroup(s.p.init.Done(), data, out[count..]);
    assert s.p.init.needle + |out| == INIT_SIZE by {
      assert |s.p.init.Done() + out| == INIT_SIZE;
    }
    if s.p.init.needle + count == INIT_SIZE {
      assert out[count..] == [];
      assert s.p.init.Done() + data + [] == s.p.init.Done() + data;
    }
  }

  lemma GreetingGoesOn(s: Sys, count: nat)
    requires Inv(s) && Enabled(s, InitRead(count)) && s.p.init.needle + count < INIT_SIZE
    ensures Inv(AfterInitRead(s, count)) && AfterInitRead(s, count).p.upstreamFlags == s.p.upstreamFlags
  {
    GreetingSplit(s, count);
  }

  lemma GreetingEnds(s: Sys, count: nat)
    requires Inv(s) && HelloOk(s) && Enabled(s, InitRead(count)) && s.p.init.needle + count == INIT_SIZE
    ensures Inv(AfterInitRead(s, count)) && AfterInitRead(s, count).p.upstreamFlags == s.p.upstreamFlags
  {
    GreetingSplit(s, count);
    InitComplete(s.p, s.w.hello, |s.w.disk|, s.w.conn.outbox[..count]);
    assert AfterInitRead(s, count).p.req.Done() == [];
  }

  lemma InitReadKeeps(s: Sys, count: nat)
    requires Inv(s) && HelloOk(s) && Enabled(s, InitRead(count))
    ensures Inv(AfterInitRead(s, count)) && AfterInitRead(s, count).p.upstreamFlags == s.p.upstreamFlags
  {
    GreetingSplit(s, count);
    if s.p.init.needle + count == INIT_SIZE {
      GreetingEnds(s, count);
    } else {
      GreetingGoesOn(s, count);
    }
  }

  // ----- talking to the server -----

  lemma UpWriteKeeps(s: Sys, count: nat)
    requires Inv(s) && Enabled(s, UpWrite(count))
    ensures Inv(AfterUpWrite(s, count))
  {
    SplitAt(s.p.req, REQ_CAPACITY, count);
  }

  // ----- the bytes on the wire -----

  /** The client's request is encoded as it was read; a doubled one differs in its length only. */
  lemma PrefetchWire(p: Proxy, x: Exchange)
    requires BufOk(p.req, REQ_CAPACITY) && IsExchange(x) && p.req.All() == OnWire(x) && p.reqHdr == x.r
    requires p.state.WriteToUpstream? && p.prefetch.Prefetch? && PrefetchReady(p) && !p.isPrefetchReq
    requires PrefetchSize(p.prefetch) <= NBD_MAX_SIZE / 2
    ensures var q := PrefetchForRequest(p);
            q.state.WriteToUpstream? ==> IsExchange(Sent(q, x)) && q.req.All() == OnWire(Sent(q, x))
  {
    Widths();
    if !CacheHit(p.prefetch, x.r) && ShouldPrefetch(p.prefetch, p.upstreamSize, x.r) {
      DoubledRequest(p, x);
    }
  }

  /** The request just completed, with the cache consulted or not. */
  lemma TurnWire(p: Proxy, x: Exchange)
    requires BufOk(p.req, REQ_CAPACITY) && IsExchange(x) && p.req.All() == OnWire(x) && p.reqHdr == x.r
    requires p.state.WriteToUpstream? && PrefetchReady(p) && !p.isPrefetchReq && PrefetchSize(p.prefetch) <= NBD_MAX_SIZE / 2
    ensures var t := if p.prefetch.Prefetch? then PrefetchForRequest(p) else p;
            t.state.WriteToUpstream? ==> IsExchange(Sent(t, x)) && t.req.All() == OnWire(Sent(t, x))
  {
    if p.prefetch.Prefetch? {
      PrefetchWire(p, x);
    }
  }

  lemma DownReadWire(s: Sys, data: seq<byte>)
    requires Inv(s) && Enabled(s, DownRead(data))
    ensures WireOk(AfterDownRead(s, data))
  {
    ReadsRequest(s.p, data);
    var q := ReadDownstream(s.p, Got(data));
    if q.state.WriteToUpstream? {
      WholeWire(s, data, q);
    } else {
      PartWire(s, data, q);
    }
  }

  lemma PartWire(s: Sys, data: seq<byte>, q: Proxy)
    requires Enabled(s, DownRead(data)) && q == ReadDownstream(s.p, Got(data)) && !q.state.WriteToUpstream?
    ensures WireOk(AfterDownRead(s, data))
  {
  }

  lemma WholeWire(s: Sys, data: seq<byte>, q: Proxy)
    requires Enabled(s, DownRead(data)) && q == ReadDownstream(s.p, Got(data)) && q.state.WriteToUpstream?
    requires ReadOutcome(s.p, data, q) && !s.p.isPrefetchReq && PrefetchSize(s.p.prefetch) <= NBD_MAX_SIZE / 2
    ensures WireOk(AfterDownRead(s, data))
  {
    TurnWire(q, JustRead(q.req));
  }

  /** What the server makes of as much of a request as it has got. */
  lemma ArrivedPrefix(x: Exchange, inbox: seq<byte>)
    requires IsExchange(x) && IsRequest(x.r) && inbox <= OnWire(x)
    ensures |inbox| >= REQUEST_SIZE ==>
              Arrived(inbox) == Exchange(x.r, x.payload[..|inbox| - REQUEST_SIZE])
    ensures RequestArrived(inbox) <==> inbox == OnWire(x)
  {
    if |inbox| >= REQUEST_SIZE {
      RequestRoundTrip(x.r);
      assert inbox[..REQUEST_SIZE] == OnWire(x)[..REQUEST_SIZE] == EncodeRequest(x.r);
      var rest, n := inbox[REQUEST_SIZE..], |inbox| - REQUEST_SIZE;
      assert rest == OnWire(x)[REQUEST_SIZE..|inbox|] == x.payload[..n];
    }
  }

  lemma SentIsRequest(s: Sys)
    requires Pending(s) && CacheOk(s.p.prefetch, s.w.disk)
    ensures IsExchange(Sent(s.p, s.w.cur)) && IsRequest(Sent(s.p, s.w.cur).r)
  {
    Widths();
  }

  // ----- the server -----

  lemma StoreKeepsMid(was: seq<byte>, now: seq<byte>, x: Exchange, count: nat)
    requires IsExchange(x) && DiskMid(was, now, x) && count <= |x.payload|
    requires x.r.typ == REQUEST_WRITE && ErrorFor(|was|, x.r) == 0
    ensures DiskMid(was, Splice(now, x.r.from, x.payload[..count]), x)
  {
  }

  /** Carrying out a request that may be half done already: the outcome is as from scratch. */
  lemma AnswerFromMid(was: seq<byte>, now: seq<byte>, x: Exchange)
    requires IsExchange(x) && DiskMid(was, now, x)
    ensures DiskAfter(now, x.r, x.payload) == DiskAfter(was, x.r, x.payload)
    ensures DiskMid(was, DiskAfter(was, x.r, x.payload), x)
    ensures ReplyBytes(now, x.r) == ReplyBytes(was, x.r)
    ensures x.r.typ != REQUEST_WRITE ==> now == was
  {
    if x.r.typ != REQUEST_WRITE {
      assert now == was;
    }
  }

  /** The server holds part of the request in hand, or nothing. */
  lemma ServerHas(s: Sys)
    requires Inv(s) && WireOk(s) && s.w.conn.Conn? && s.w.conn.inbox != []
    ensures IsUpstreamState(s.p.state) && !s.p.state.ReadInitFromUpstream?
    ensures Pending(s) && s.w.conn.inbox <= s.w.queued == OnWire(Sent(s.p, s.w.cur))
    ensures IsExchange(Sent(s.p, s.w.cur)) && IsRequest(Sent(s.p, s.w.cur).r)
  {
    SentIsRequest(s);
    assert s.p.state.WriteToUpstream? ==> s.p.req.Done() <= s.p.req.All();
  }

  lemma ServerStoresKeeps(s: Sys, count: nat)
    requires Inv(s) && WireOk(s) && Enabled(s, ServerStores(count))
    ensures Inv(AfterServerStores(s, count)) && WireOk(AfterServerStores(s, count))
  {
    ServerHas(s);
    ArrivedPrefix(Sent(s.p, s.w.cur), s.w.conn.inbox);
    var x := Arrived(s.w.conn.inbox);
    assert x.payload[..count] == s.w.cur.payload[..count];
    StoreKeepsMid(s.w.refDisk, s.w.disk, s.w.cur, count);
  }

  /** The request sent has the same effect as the request in hand. */
  lemma SentSameDisk(s: Sys)
    requires Pending(s) && IsExchange(Sent(s.p, s.w.cur))
    ensures DiskMid(s.w.refDisk, s.w.disk, Sent(s.p, s.w.cur))
    ensures DiskAfter(s.w.refDisk, s.p.reqHdr, s.w.cur.payload) == DiskAfter(s.w.refDisk, s.w.cur.r, s.w.cur.payload)
  {
  }

  /** The server carries out the whole request, in one go or after storing some of it. */
  lemma AnswerEffect(s: Sys)
    requires Inv(s) && WireOk(s) && Enabled(s, ServerAnswers)
    ensures Pending(s) && !s.p.state.WriteToUpstream? && IsUpstreamState(s.p.state)
    ensures AfterServerAnswers(s) == Sys(s.p, s.w.(
              disk := DiskAfter(s.w.refDisk, s.w.cur.r, s.w.cur.payload),
              conn := Conn([], s.w.conn.outbox + ReplyBytes(s.w.refDisk, s.p.reqHdr))))
    ensures DiskMid(s.w.refDisk, AfterServerAnswers(s).w.disk, s.w.cur)
    ensures s.w.cur.r.typ != REQUEST_WRITE ==> AfterServerAnswers(s).w.disk == s.w.disk
    ensures s.w.conn.inbox == s.w.queued
  {
    ServerHas(s);
    var x := Sent(s.p, s.w.cur);
    WholeInbox(x, s.w.conn.inbox);
    SentSameDisk(s);
    AnswerFromMid(s.w.refDisk, s.w.disk, x);
    AnswerFromMid(s.w.refDisk, s.w.disk, s.w.cur);
  }

  lemma WholeInbox(x: Exchange, inbox: seq<byte>)
    requires IsExchange(x) && IsRequest(x.r) && inbox <= OnWire(x) && RequestArrived(inbox)
    ensures inbox == OnWire(x) && Arrived(inbox) == x && inbox[REQUEST_SIZE + PayloadLength(x.r)..] == []
  {
    ArrivedPrefix(x, inbox);
    assert x.payload[..|x.payload|] == x.payload;
  }

  lemma ServerAnswersKeeps(s: Sys)
    requires Inv(s) && WireOk(s) && Enabled(s, ServerAnswers)
    ensures Inv(AfterServerAnswers(s)) && WireOk(AfterServerAnswers(s))
  {
    AnswerEffect(s);
    var t := AfterServerAnswers(s);
    assert Pending(t);
    if s.p.state.ReadFromUpstream? {
      assert s.w.conn.outbox + ReplyBytes(s.w.refDisk, s.p.reqHdr) == ReplyBytes(s.w.refDisk, s.p.reqHdr);
      assert s.p.rsp.Done() + t.w.conn.outbox == t.w.conn.outbox;
    }
  }

  // ----- the reply -----

  function ReplySize(r: Request): nat {
    REPLY_SIZE + if r.typ == REQUEST_READ then r.len else 0
  }

  /** A reply begins with the right magic and is no longer than the proxy expects. */
  lemma ReplyShape(disk: seq<byte>, r: Request)
    requires |r.handle| == 8
    ensures var all := ReplyBytes(disk, r);
            |all| <= ReplySize(r) && DecodeReply(all[..REPLY_SIZE]).magic == REPLY_MAGIC
  {
    Widths();
    ReplyRoundTrip(Reply(REPLY_MAGIC, ErrorFor(|disk|, r), r.handle));
    assert ReplyBytes(disk, r)[..REPLY_SIZE] == ReplyHeader(r.handle, ErrorFor(|disk|, r));
  }

  /** What proxy_read_from_upstream makes of more bytes: the whole reply, or part of one. */
  ghost predicate ReplyOutcome(p: Proxy, data: seq<byte>, q: Proxy) {
    && BufOk(q.rsp, RSP_CAPACITY)
    && q == p.(rsp := q.rsp, state := q.state)
    && (|| (q.state.ReadFromUpstream? && PartReplied(q.rsp, p.reqHdr) && q.rsp.Done() == p.rsp.Done() + data)
        || (q.state.WriteToDownstream? && q.rsp.needle == 0 && q.rsp.size == ReplySize(p.reqHdr)
            && q.rsp.All() == p.rsp.Done() + data))
  }

  lemma ReplyRead(p: Proxy, data: seq<byte>, all: seq<byte>)
    requires BufOk(p.rsp, RSP_CAPACITY) && PartReplied(p.rsp, p.reqHdr) && p.state.ReadFromUpstream?
    requires data != [] && CanRead(p.rsp, REPLY_SIZE, Got(data)) && ReplySize(p.reqHdr) <= RSP_CAPACITY
    requires |all| >= REPLY_SIZE && DecodeReply(all[..REPLY_SIZE]).magic == REPLY_MAGIC
    requires p.rsp.Done() + data <= all
    ensures ReplyOutcome(p, data, ReadUpstream(p, Got(data)))
  {
    ReadGrows(p.rsp, RSP_CAPACITY, REPLY_SIZE, data);
    var rsp := IobufRead(p.rsp, REPLY_SIZE, Got(data));
    if rsp.needle == REPLY_SIZE {
      assert rsp.buf[..REPLY_SIZE] == rsp.Done() == all[..REPLY_SIZE];
    }
  }

  /** A complete reply fills the buffer, and nothing is left on the connection. */
  lemma WholeReply(disk: seq<byte>, r: Request, done: seq<byte>, rest: seq<byte>)
    requires |r.handle| == 8 && done + rest == ReplyBytes(disk, r) && |done| == ReplySize(r)
    ensures rest == [] && done == ReplyBytes(disk, r)
    ensures r.typ == REQUEST_READ && r.len > 0 ==> ErrorFor(|disk|, r) == 0
  {
    ReplyShape(disk, r);
    assert |done + rest| == |done| + |rest|;
    assert done + [] == done;
  }

  lemma CutInTwo(buf: seq<byte>, head: seq<byte>, a: seq<byte>, b: seq<byte>)
    requires |head| + |a| + |b| <= |buf| && buf[..|head| + |a| + |b|] == head + (a + b)
    ensures buf[..|head| + |a|] == head + a && buf[|head| + |a|..|head| + |a| + |b|] == b
  {
    var whole := buf[..|head| + |a| + |b|];
    assert buf[..|head| + |a|] == whole[..|head| + |a|];
    assert buf[|head| + |a|..|head| + |a| + |b|] == whole[|head| + |a|..];
  }

  /** A doubled reply is the reply that was asked for, followed by the bytes for the cache. */
  lemma DoubledReply(disk: seq<byte>, r: Request, rsp: IoBuf)
    requires |r.handle| == 8 && r.magic == REQUEST_MAGIC && r.typ == REQUEST_READ && r.from + 2 * r.len <= |disk|
    requires BufOk(rsp, RSP_CAPACITY) && rsp.All() == ReplyBytes(disk, r.(len := r.len * 2))
    ensures rsp.size == REPLY_SIZE + 2 * r.len
    ensures rsp.(size := rsp.size - r.len).All() == ReplyBytes(disk, r)
    ensures rsp.buf[REPLY_SIZE + r.len..REPLY_SIZE + r.len + r.len] == disk[r.from + r.len..r.from + r.len + r.len]
  {
    var a, b := disk[r.from..r.from + r.len], disk[r.from + r.len..r.from + r.len + r.len];
    GoodRead(disk, r);
    GoodRead(disk, r.(len := r.len * 2));
    assert disk[r.from..r.from + r.len * 2] == a + b;
    CutInTwo(rsp.buf, ReplyHeader(r.handle, 0), a, b);
  }

  lemma CacheFilled(c: Prefetch, disk: seq<byte>, from: nat, data: seq<byte>)
    requires CacheOk(c, disk) && c.Prefetch? && |data| <= |c.buffer| && from + |data| <= |disk|
    requires data == disk[from..from + |data|]
    ensures CacheOk(c.(buffer := Splice(c.buffer, 0, data), from := from, len := |data|, isFull := true), disk)
  {
    assert Splice(c.buffer, 0, data)[..|data|] == data;
  }

  /** The reply to a doubled read, cut in two. */
  lemma SplitTurn(p: Proxy, disk: seq<byte>, r: Request)
    requires BufOk(p.rsp, RSP_CAPACITY) && CacheOk(p.prefetch, disk) && p.isPrefetchReq && p.prefetch.Prefetch?
    requires |r.handle| == 8 && r.magic == REQUEST_MAGIC && PrefetchOk(p, r, |disk|) && p.reqHdr == SentRequest(p, r)
    requires p.state.WriteToDownstream? && p.rsp.needle == 0 && p.rsp.All() == ReplyBytes(disk, p.reqHdr)
    ensures ReplyReady(p)
    ensures var q := PrefetchForReply(p);
            && BufOk(q.rsp, RSP_CAPACITY) && q.rsp.All() == ReplyBytes(disk, r) && CacheOk(q.prefetch, disk)
  {
    var data := disk[r.from + r.len..r.from + r.len + r.len];
    DoubledReply(disk, r, p.rsp);
    CacheFilled(p.prefetch, disk, r.from + r.len, data);
    assert PrefetchForReply(p).prefetch
        == p.prefetch.(buffer := Splice(p.prefetch.buffer, 0, data), from := r.from + r.len, len := r.len, isFull := true);
  }

  /** The whole reply is in; what proxy_prefetch_for_reply does with it. */
  lemma ReplyTurn(p: Proxy, was: seq<byte>, disk: seq<byte>, r: Request)
    requires BufOk(p.rsp, RSP_CAPACITY) && CacheOk(p.prefetch, disk) && (p.isPrefetchReq ==> p.prefetch.Prefetch? && was == disk)
    requires |r.handle| == 8 && r.magic == REQUEST_MAGIC && PrefetchOk(p, r, |disk|) && p.reqHdr == SentRequest(p, r)
    requires p.state.WriteToDownstream? && p.rsp.needle == 0 && p.rsp.All() == ReplyBytes(was, p.reqHdr)
    ensures ReplyReady(p)
    ensures var q := if p.prefetch.Prefetch? then PrefetchForReply(p) else p;
            && q == p.(prefetch := q.prefetch, reqHdr := q.reqHdr, rsp := q.rsp, isPrefetchReq := false)
            && BufOk(q.rsp, RSP_CAPACITY) && q.rsp.needle == 0 && q.rsp.All() == ReplyBytes(was, r)
            && CacheOk(q.prefetch, disk)
  {
    if p.isPrefetchReq {
      SplitTurn(p, disk, r);
    }
  }

  /** A read of at least one byte of the reply. */
  ghost predicate MayReadReply(s: Sys, count: nat) {
    && s.p.state.ReadFromUpstream? && s.w.conn.Conn? && 0 < count <= |s.w.conn.outbox|
    && CanRead(s.p.rsp, REPLY_SIZE, Got(s.w.conn.outbox[..count]))
  }

  /** Before proxy_prefetch_for_reply: the whole reply, as the server sent it, is in the buffer. */
  lemma ReplyComes(s: Sys, count: nat)
    requires Inv(s) && MayReadReply(s, count)
    ensures var out := s.w.conn.outbox;
            var q := ReadUpstream(s.p, Got(out[..count]));
            && s.w.conn.inbox == [] && s.w.disk == DiskAfter(s.w.refDisk, s.w.cur.r, s.w.cur.payload)
            && ReplyOutcome(s.p, out[..count], q)
            && (q.state.ReadFromUpstream? ==> q.rsp.Done() + out[count..] == ReplyBytes(s.w.refDisk, s.p.reqHdr))
            && (q.state.WriteToDownstream? ==> out[count..] == [] && q.rsp.All() == ReplyBytes(s.w.refDisk, s.p.reqHdr))
  {
    var out, r := s.w.conn.outbox, s.p.reqHdr;
    var data, all := out[..count], ReplyBytes(s.w.refDisk, r);
    assert out == data + out[count..];
    Regroup(s.p.rsp.Done(), data, out[count..]);
    ReplyShape(s.w.refDisk, r);
    ReplyRead(s.p, data, all);
    var q := ReadUpstream(s.p, Got(data));
    if q.state.WriteToDownstream? {
      WholeReply(s.w.refDisk, r, q.rsp.All(), out[count..]);
    }
  }

  lemma ReplyInHand(s: Sys, q: Proxy)
    requires Inv(s) && WireOk(s) && s.p.state.ReadFromUpstream?
    requires s.w.disk == DiskAfter(s.w.refDisk, s.w.cur.r, s.w.cur.payload)
    requires q == s.p.(prefetch := q.prefetch, reqHdr := q.reqHdr, rsp := q.rsp, isPrefetchReq := false, state := WriteToDownstream)
    requires BufOk(q.rsp, RSP_CAPACITY) && q.rsp.needle == 0 && q.rsp.All() == ReplyBytes(s.w.refDisk, s.w.cur.r)
    requires CacheOk(q.prefetch, s.w.disk)
    ensures var t := Sys(q, s.w.(conn := Conn([], []))); Inv(t) && WireOk(t)
  {
    assert q.rsp.Done() == [];
    assert s.w.given + [] == s.w.given;
  }

  lemma ReplyEnds(s: Sys, count: nat, q: Proxy)
    requires Inv(s) && WireOk(s) && MayReadReply(s, count)
    requires q == ReadUpstream(s.p, Got(s.w.conn.outbox[..count])) && q.state.WriteToDownstream?
    ensures Enabled(s, UpRead(count))
    ensures Inv(AfterUpRead(s, count)) && WireOk(AfterUpRead(s, count))
  {
    ReplyComes(s, count);
    ReplyTurn(q, s.w.refDisk, s.w.disk, s.w.cur.r);
    ReplyInHand(s, AfterUpRead(s, count).p);
  }

  lemma ReplyGoesOn(s: Sys, count: nat, q: Proxy)
    requires Inv(s) && WireOk(s) && MayReadReply(s, count)
    requires q == ReadUpstream(s.p, Got(s.w.conn.outbox[..count])) && !q.state.WriteToDownstream?
    ensures Enabled(s, UpRead(count))
    ensures Inv(AfterUpRead(s, count)) && WireOk(AfterUpRead(s, count))
  {
    ReplyComes(s, count);
  }

  /** Reading from upstream never meets a buffer that is too small, and keeps the invariant. */
  lemma UpReadKeeps(s: Sys, count: nat)
    requires Inv(s) && WireOk(s) && MayReadReply(s, count)
    ensures Enabled(s, UpRead(count))
    ensures Inv(AfterUpRead(s, count)) && WireOk(AfterUpRead(s, count))
  {
    var q := ReadUpstream(s.p, Got(s.w.conn.outbox[..count]));
    if q.state.WriteToDownstream? {
      ReplyEnds(s, count, q);
    } else {
      ReplyGoesOn(s, count, q);
    }
  }
}
