/**
 What else holds over whole runs of the proxy: resending, the cache and the buffers.
 */
module ProxyProgress {
  import opened Bytes
  import opened Wire
  import opened NaiveDisk
  import opened ProxyCode
  import opened ProxySystem
  import opened ProxySafety
  import opened ProxyUpstream
  import opened ProxyRefinement

  // ----- resend identity -----

  /**
   While a request is in hand, the bytes queued for upstream are the client's own, but for the
   length of a doubled read; the server never holds anything but a prefix of them; a fresh
   connection starts at byte 0; and the reply buffer holds nothing from an earlier connection.
   */
  ghost predicate Identity(s: Sys) {
    var q, was := s.p.req.All(), s.w.curWire;
    && |q| == |was| >= REQUEST_SIZE && q[REQUEST_SIZE..] == was[REQUEST_SIZE..]
    && DecodeRequest(q[..REQUEST_SIZE]) == s.p.reqHdr
    && s.p.reqHdr == DecodeRequest(was[..REQUEST_SIZE]).(len := s.p.reqHdr.len)
    && (s.p.isPrefetchReq || q == was)
    && (s.w.conn.Conn? ==> s.w.conn.inbox <= q)
    && (s.p.state.ReadInitFromUpstream? ==> s.w.conn.Conn? && s.w.conn.inbox == [] && s.p.req.needle == s.p.rsp.needle == 0)
    && (s.p.state.ReadFromUpstream? ==> ReplyPart(s))
  }

  ghost predicate ReplyPart(s: Sys) {
    && s.w.conn.Conn? && |s.p.reqHdr.handle| == 8
    && (|| s.p.rsp.Done() + s.w.conn.outbox == []
        || s.p.rsp.Done() + s.w.conn.outbox == ReplyBytes(s.w.refDisk, s.p.reqHdr))
  }

  lemma FullIdentity(s: Sys)
    requires Full(s) && IsUpstreamState(s.p.state)
    ensures Identity(s)
  {
    var x, y := s.w.cur, Sent(s.p, s.w.cur);
    SentIsRequest(s);
    RequestRoundTrip(x.r);
    RequestRoundTrip(y.r);
    WireParts(x);
    WireParts(y);
    InboxIsPrefix(s);
  }

  lemma ResendIdentity(s0: Sys, run: seq<Step>, s: Sys)
    requires Reachable(s0, run, s) && IsUpstreamState(s.p.state)
    ensures Identity(s)
  {
    ReachableFull(s0, run, s);
    FullIdentity(s);
  }

  lemma WireParts(x: Exchange)
    requires IsExchange(x)
    ensures OnWire(x)[..REQUEST_SIZE] == EncodeRequest(x.r) && OnWire(x)[REQUEST_SIZE..] == x.payload
  {
  }

  lemma InboxIsPrefix(s: Sys)
    requires Inv(s) && IsUpstreamState(s.p.state)
    ensures s.w.conn.Conn? ==> s.w.conn.inbox <= s.w.queued
    ensures s.p.state.ReadFromUpstream? ==> ReplyPart(s)
  {
    assert s.p.state.WriteToUpstream? ==> s.p.req.Done() <= s.p.req.All();
  }

  /** The proxy holds on to one request throughout a run. */
  ghost predicate InFlight(s: Sys, run: seq<Step>)
    decreases |run|
  {
    && IsUpstreamState(s.p.state)
    && (run != [] ==> Enabled(s, run[0]) && InFlight(Apply(s, run[0]), run[1..]))
  }

  lemma UpReadHolds(s: Sys, count: nat)
    requires Full(s) && Enabled(s, UpRead(count)) && IsUpstreamState(AfterUpRead(s, count).p.state)
    ensures AfterUpRead(s, count).w.cur == s.w.cur && AfterUpRead(s, count).w.queued == s.w.queued
  {
  }

  ghost predicate SameInHand(s: Sys, t: Sys) {
    t.w.cur == s.w.cur && t.w.queued == s.w.queued
  }

  lemma StepHolds(s: Sys, a: Step)
    requires Full(s) && IsUpstreamState(s.p.state) && Enabled(s, a) && IsUpstreamState(Apply(s, a).p.state)
    ensures SameInHand(s, Apply(s, a))
  {
    if a.UpRead? {
      UpReadHolds(s, a.count);
    } else {
      SameRequest(s, a);
    }
  }

  lemma {:induction false} RunHolds(s: Sys, run: seq<Step>)
    requires Full(s) && InFlight(s, run)
    ensures CanRun(s, run) && Full(Exec(s, run)) && IsUpstreamState(Exec(s, run).p.state) && SameInHand(s, Exec(s, run))
    decreases |run|
  {
    if run != [] {
      var t := Apply(s, run[0]);
      StepKeeps(s, run[0]);
      StepHolds(s, run[0]);
      RunHolds(t, run[1..]);
    }
  }

  /** Every retransmission, after however many drops, is of the same bytes. */
  lemma ResendsTheSame(s: Sys, run: seq<Step>)
    requires Full(s) && InFlight(s, run)
    ensures CanRun(s, run) && Exec(s, run).p.req.All() == s.p.req.All()
  {
    RunHolds(s, run);
  }

  // ----- the cache and the buffers -----

  /** The reply proxy_prefetch_for_request builds from the cache. */
  function CachedReply(c: Prefetch, r: Request): seq<byte>
    requires |r.handle| == 8 && c.Prefetch? && c.from <= r.from && r.from - c.from + r.len <= |c.buffer|
  {
    ReplyHeader(r.handle, 0) + c.buffer[r.from - c.from..r.from - c.from + r.len]
  }

  /** The server's refusal of a bad magic does not look like a success. */
  lemma RefusalDiffers(disk: seq<byte>, r: Request, data: seq<byte>)
    requires |r.handle| == 8 && r.magic != REQUEST_MAGIC
    ensures ReplyHeader(r.handle, 0) + data != ReplyBytes(disk, r)
  {
    Widths();
    ReplyRoundTrip(Reply(REPLY_MAGIC, 0, r.handle));
    ReplyRoundTrip(Reply(REPLY_MAGIC, EBADMSG, r.handle));
    assert (ReplyHeader(r.handle, 0) + data)[..REPLY_SIZE] == ReplyHeader(r.handle, 0);
    assert ReplyBytes(disk, r)[..REPLY_SIZE] == ReplyHeader(r.handle, EBADMSG);
  }

  /** The cached reply is the server's own exactly if the request has the right magic. */
  ghost predicate TrueHit(c: Prefetch, disk: seq<byte>, r: Request) {
    && |r.handle| == 8 && c.Prefetch? && c.from <= r.from && r.from - c.from + r.len <= |c.buffer|
    && r.from + r.len <= |disk|
    && (CachedReply(c, r) == ReplyBytes(disk, r) <==> r.magic == REQUEST_MAGIC)
  }

  lemma HitIsTrue(c: Prefetch, disk: seq<byte>, r: Request)
    requires CacheOk(c, disk) && CacheHit(c, r) && |r.handle| == 8 && r.from + r.len < WORD && |disk| < WORD
    ensures TrueHit(c, disk, r)
  {
    CachedBytes(c, disk, r);
    if r.magic == REQUEST_MAGIC {
      GoodRead(disk, r);
    } else {
      RefusalDiffers(disk, r, disk[r.from..r.from + r.len]);
    }
  }

  /**
   Every hit, on any sub-range, in any reachable state, is answered as upstream would have
   answered it, exactly when the request has the right magic: the proxy does not look at it.
   */
  lemma CacheCoherence(s0: Sys, run: seq<Step>, s: Sys, r: Request)
    requires Reachable(s0, run, s) && CacheHit(s.p.prefetch, r) && |r.handle| == 8 && r.from + r.len < WORD
    ensures TrueHit(s.p.prefetch, s.w.disk, r)
  {
    ReachableFull(s0, run, s);
    HitIsTrue(s.p.prefetch, s.w.disk, r);
  }

  /** needle <= size <= capacity, always; and no read or cache copy meets a buffer that is too small. */
  lemma BufferBounds(s0: Sys, run: seq<Step>, s: Sys)
    requires Reachable(s0, run, s)
    ensures BufOk(s.p.init, INIT_SIZE) && BufOk(s.p.req, REQ_CAPACITY) && BufOk(s.p.rsp, RSP_CAPACITY)
    ensures forall data :: MayRead(s, data) ==> Enabled(s, DownRead(data))
    ensures forall count: nat :: MayReadReply(s, count) ==> Enabled(s, UpRead(count))
  {
    ReachableFull(s0, run, s);
    forall data | MayRead(s, data) ensures Enabled(s, DownRead(data)) {
      DownReadKeeps(s, data);
    }
    forall count: nat | MayReadReply(s, count) ensures Enabled(s, UpRead(count)) {
      UpReadKeeps(s, count);
    }
  }

  /** The reply to a doubled read fits the reply buffer. */
  predicate DoubledFits(c: Prefetch, size: nat, r: Request) {
    TypeOk(r) && ShouldPrefetch(c, size, r) ==> REPLY_SIZE + 2 * r.len <= RSP_CAPACITY
  }

  /** Which cache sizes are safe: no doubled read overflows exactly when the cache, or the disk, is small enough. */
  lemma SafeCacheSizes(c: Prefetch, size: nat)
    requires size < WORD
    ensures (forall r: Request :: DoubledFits(c, size, r)) <==> PrefetchSize(c) <= NBD_MAX_SIZE / 2 || size < NBD_MAX_SIZE + 2
  {
    if PrefetchSize(c) > NBD_MAX_SIZE / 2 && size >= NBD_MAX_SIZE + 2 {
      var r := Request(REQUEST_MAGIC, 0, REQUEST_READ, [0, 0, 0, 0, 0, 0, 0, 0], 0, NBD_MAX_SIZE / 2 + 1);
      assert !DoubledFits(c, size, r);
    } else {
      forall r: Request ensures DoubledFits(c, size, r) {
        SafeRead(c, size, r);
      }
    }
  }

  lemma SafeRead(c: Prefetch, size: nat, r: Request)
    requires size < WORD
    requires PrefetchSize(c) <= NBD_MAX_SIZE / 2 || size < NBD_MAX_SIZE + 2
    ensures DoubledFits(c, size, r)
  {
  }
}
