/**
 The proxy refines one reliable disk: whatever drops, time-outs and partial transfers happen,
 the client is given the replies of a disk that applies each of its requests once, in order.
 */
module ProxySafety {
  import opened Bytes
  import opened Wire
  import opened NaiveDisk
  import opened ProxyCode
  import opened ProxySystem

  // ----- what holds in every state -----

  predicate BufOk(b: IoBuf, capacity: nat) {
    |b.buf| == capacity && b.needle <= b.size <= capacity
  }

  /** A full cache holds the disk's own bytes. */
  ghost predicate Coherent(c: Prefetch, disk: seq<byte>) {
    IsFull(c) ==> c.len <= |c.buffer| && c.from + c.len <= |disk| && c.buffer[..c.len] == disk[c.from..c.from + c.len]
  }

  ghost predicate CacheOk(c: Prefetch, disk: seq<byte>) {
    c.Prefetch? ==> |c.buffer| == c.size <= NBD_MAX_SIZE / 2 && Coherent(c, disk)
  }

  ghost predicate Base(s: Sys) {
    && BufOk(s.p.init, INIT_SIZE) && BufOk(s.p.req, REQ_CAPACITY) && BufOk(s.p.rsp, RSP_CAPACITY)
    && s.p.upstreamSize == |s.w.disk| == |s.w.refDisk| && |s.w.hello| == INIT_SIZE
    && |s.w.disk| < WORD
    && CacheOk(s.p.prefetch, s.w.disk)
    && (s.p.isPrefetchReq ==> s.p.prefetch.Prefetch?)
  }

  ghost predicate Quiet(s: Sys) {
    s.w.conn == Conn([], []) && !s.p.isPrefetchReq
  }

  predicate TypeOk(r: Request) {
    r.typ != REQUEST_DISCONNECT && (r.typ == REQUEST_READ || r.typ == REQUEST_WRITE ==> r.len <= NBD_MAX_SIZE)
  }

  /** A request the proxy has accepted from its client. */
  ghost predicate Accepted(x: Exchange) {
    IsExchange(x) && IsRequest(x.r) && ClientBehaves(x.r) && TypeOk(x.r)
  }

  /** The request as queued for upstream: the client's own, or a read of twice the length. */
  function SentRequest(p: Proxy, r: Request): Request {
    if p.isPrefetchReq then r.(len := r.len * 2) else r
  }

  ghost predicate PrefetchOk(p: Proxy, r: Request, size: nat) {
    p.isPrefetchReq ==>
      && r.typ == REQUEST_READ && p.prefetchReqOrigLen == r.len && 0 < r.len <= PrefetchSize(p.prefetch)
      && r.from + r.len * 2 <= size
  }

  /** Part of a write may be on disk; nothing else can differ. */
  ghost predicate DiskMid(was: seq<byte>, now: seq<byte>, x: Exchange)
    requires IsExchange(x)
  {
    && |now| == |was|
    && forall i :: 0 <= i < |was| ==>
         || now[i] == was[i]
         || (x.r.typ == REQUEST_WRITE && ErrorFor(|was|, x.r) == 0 && x.r.from <= i < x.r.from + x.r.len
             && now[i] == x.payload[i - x.r.from])
  }

  /** A request is in flight: not answered, perhaps partly carried out. */
  ghost predicate Pending(s: Sys) {
    var p, w := s.p, s.w;
    && p.helloSent && w.given == w.hello + w.refOut && w.taken == w.stream + w.curWire
    && Accepted(w.cur) && PrefetchOk(p, w.cur.r, |w.disk|)
    && p.reqHdr == SentRequest(p, w.cur.r) && p.req.All() == w.queued
    && |w.queued| == REQUEST_SIZE + |w.cur.payload|
    && DiskMid(w.refDisk, w.disk, w.cur)
    && (IsFull(p.prefetch) ==> w.cur.r.typ == REQUEST_READ)
  }

  /** How far a request has been read from the client. */
  ghost predicate PartRead(p: Proxy) {
    var req := p.req;
    || req.needle == 0
    || (req.needle < REQUEST_SIZE && req.size == REQUEST_SIZE)
    || (&& REQUEST_SIZE <= req.needle < req.size
        && |req.buf| >= REQUEST_SIZE && p.reqHdr == DecodeRequest(req.buf[..REQUEST_SIZE])
        && p.reqHdr.typ == REQUEST_WRITE && p.reqHdr.len <= NBD_MAX_SIZE && ClientBehaves(p.reqHdr)
        && req.size == REQUEST_SIZE + p.reqHdr.len)
  }

  ghost predicate Listening(s: Sys) {
    && Quiet(s) && s.p.helloSent && s.w.disk == s.w.refDisk && s.w.given == s.w.hello + s.w.refOut
    && s.w.taken == s.w.stream + s.p.req.Done()
    && PartRead(s.p) && s.p.rsp.needle == 0
  }

  ghost predicate SendingHello(s: Sys) {
    && Quiet(s) && s.w.disk == s.w.refDisk && s.w.stream == s.w.taken == s.w.refOut == []
    && s.p.rsp.All() == s.w.hello && s.w.given == s.p.rsp.Done()
  }

  ghost predicate SendingReply(s: Sys) {
    var p, w := s.p, s.w;
    && Quiet(s) && Accepted(w.cur) && w.taken == w.stream + w.curWire
    && w.disk == DiskAfter(w.refDisk, w.cur.r, w.cur.payload)
    && p.rsp.All() == ReplyBytes(w.refDisk, w.cur.r)
    && w.given == w.hello + w.refOut + p.rsp.Done()
  }

  ghost predicate Forwarding(s: Sys) {
    s.p.req.needle < s.p.req.size && s.p.rsp.needle == 0 && s.w.conn == Conn(s.p.req.Done(), [])
  }

  /** The server has not answered yet; or it has, and part of its reply has been read. */
  ghost predicate Awaiting(s: Sys)
    requires Pending(s)
  {
    var p, w := s.p, s.w;
    && w.conn.Conn?
    && (|| (w.conn == Conn(w.queued, []) && p.rsp.needle == 0)
        || (&& w.conn.inbox == [] && w.disk == DiskAfter(w.refDisk, w.cur.r, w.cur.payload)
            && p.rsp.Done() + w.conn.outbox == ReplyBytes(w.refDisk, p.reqHdr)
            && PartReplied(p.rsp, p.reqHdr)))
  }

  predicate PartReplied(rsp: IoBuf, r: Request) {
    || rsp.needle == 0
    || (rsp.needle < REPLY_SIZE && rsp.size == REPLY_SIZE)
    || (REPLY_SIZE <= rsp.needle < rsp.size == REPLY_SIZE + if r.typ == REQUEST_READ then r.len else 0)
  }

  ghost predicate Greeting(s: Sys) {
    && s.w.conn.Conn? && s.w.conn.inbox == []
    && s.p.init.Done() + s.w.conn.outbox == s.w.hello
    && s.p.init.needle < INIT_SIZE && (s.p.init.needle > 0 ==> s.p.init.size == INIT_SIZE)
    && s.p.req.needle == 0 && s.p.rsp.needle == 0
  }

  /** The connection being given up: whatever the server got of the request is a prefix of it. */
  ghost predicate Abandoned(s: Sys) {
    s.w.conn.Conn? ==> s.w.conn.inbox <= s.w.queued
  }

  /** Bytes read from the client that ask nothing of the disk. */
  ghost predicate Harmless(part: seq<byte>) {
    forall disk: seq<byte> {:trigger Run(disk, part)} :: Run(disk, part).disk == disk
  }

  ghost predicate EndedWhole(w: World) {
    w.disk == w.refDisk && w.given <= w.hello + w.refOut && w.stream <= w.taken && Harmless(w.taken[|w.stream|..])
  }

  ghost predicate EndedPart(w: World) {
    && Accepted(w.cur) && w.curWire == OnWire(w.cur) && w.disk == DiskAfter(w.refDisk, w.cur.r, w.cur.payload)
    && w.given <= w.hello + w.refOut + ReplyBytes(w.refDisk, w.cur.r) && w.taken == w.stream + w.curWire
  }

  /** How a session can have ended: between two requests, or with the last one answered in part. */
  ghost predicate Ended(w: World) {
    EndedWhole(w) || EndedPart(w)
  }

  ghost predicate Inv(s: Sys) {
    && Base(s)
    && match s.p.state
       case Exit => Quiet(s) && Ended(s.w)
       case WriteToDownstream => if s.p.helloSent then SendingReply(s) else SendingHello(s)
       case ReadFromDownstream => Listening(s)
       case ConnectToUpstream => Pending(s) && Abandoned(s)
       case ReadInitFromUpstream => Pending(s) && Greeting(s)
       case WriteToUpstream => Pending(s) && Forwarding(s)
       case ReadFromUpstream => Pending(s) && Awaiting(s)
  }

  /** The request in hand as it goes upstream. */
  function Sent(p: Proxy, x: Exchange): Exchange {
    Exchange(SentRequest(p, x.r), x.payload)
  }

  predicate InHand(p: Proxy) {
    IsUpstreamState(p.state) || (p.state.WriteToDownstream? && p.helloSent)
  }

  /**
   The bytes read from the client and the bytes queued for upstream encode the same request, but
   for the length of a read that also fills the cache.
   */
  ghost predicate WireOk(s: Sys) {
    && (InHand(s.p) ==> IsExchange(s.w.cur) && s.w.curWire == OnWire(s.w.cur))
    && (IsUpstreamState(s.p.state) ==> IsExchange(Sent(s.p, s.w.cur)) && s.w.queued == OnWire(Sent(s.p, s.w.cur)))
  }

  // ----- buffers -----

  lemma ReadGrows(b: IoBuf, capacity: nat, size: nat, data: seq<byte>)
    requires BufOk(b, capacity) && size <= capacity && CanRead(b, size, Got(data))
    ensures var r := IobufRead(b, size, Got(data));
            && BufOk(r, capacity) && r.Done() == b.Done() + data
            && r.size == Opened(b, size).size && r.needle == b.needle + |data|
  {
  }

  lemma SplitAt(b: IoBuf, capacity: nat, count: nat)
    requires BufOk(b, capacity) && b.needle + count <= b.size
    ensures b.Done() + b.buf[b.needle..b.needle + count] == b.(needle := b.needle + count).Done()
    ensures b.needle + count == b.size ==> b.(needle := b.needle + count).Done() == b.All()
  {
  }

  // ----- reading a request from the client -----

  /** The bytes of a completed request are an accepted exchange. */
  lemma RequestComplete(req: IoBuf, r: Request)
    requires BufOk(req, REQ_CAPACITY) && REQUEST_SIZE <= req.size && r == DecodeRequest(req.buf[..REQUEST_SIZE])
    requires ClientBehaves(r) && TypeOk(r) && req.size == REQUEST_SIZE + PayloadLength(r)
    ensures Accepted(JustRead(req)) && JustRead(req).r == r && OnWire(JustRead(req)) == req.All()
  {
    RequestBytesRoundTrip(req.buf[..REQUEST_SIZE]);
    assert req.All() == req.buf[..REQUEST_SIZE] + req.buf[REQUEST_SIZE..req.size];
  }

  /** A whole request has been read and nothing has been done about it yet. */
  ghost predicate Ready(s: Sys) {
    && Base(s) && Quiet(s) && s.p.state.WriteToUpstream?
    && s.p.helloSent && s.w.disk == s.w.refDisk && s.w.given == s.w.hello + s.w.refOut && s.w.taken == s.w.stream + s.w.curWire
    && Accepted(s.w.cur) && s.p.reqHdr == s.w.cur.r && s.p.req.needle == 0 && s.p.rsp.needle == 0
    && s.p.req.All() == s.w.curWire == OnWire(s.w.cur)
  }

  /** The proxy goes on with the request as it stands in its buffer. */
  ghost function With(s: Sys, p: Proxy): Sys {
    Sys(p, s.w.(queued := p.req.All()))
  }

  lemma ReadyWithoutCache(s: Sys)
    requires Ready(s) && (IsFull(s.p.prefetch) ==> s.p.reqHdr.typ == REQUEST_READ)
    ensures Inv(With(s, s.p))
  {
  }

  // ----- the cache -----

  /** Despite the wrapping arithmetic, a read is doubled exactly when both halves lie on the disk. */
  lemma ShouldPrefetchIff(c: Prefetch, size: nat, r: Request)
    requires PrefetchSize(c) <= NBD_MAX_SIZE / 2 && r.from + r.len < WORD
    requires size < WORD
    ensures ShouldPrefetch(c, size, r) <==>
            r.typ == REQUEST_READ && 0 < r.len <= PrefetchSize(c) && r.from + r.len * 2 <= size
  {
  }

  /** A hit answers with the very bytes the disk holds, for any sub-range of the cached one. */
  lemma CachedBytes(c: Prefetch, disk: seq<byte>, r: Request)
    requires c.Prefetch? && Coherent(c, disk) && CacheHit(c, r) && r.from + r.len < WORD && |disk| < WORD
    ensures Within(c, r.from, r.len)
    ensures r.from + r.len <= |disk| && r.from - c.from + r.len <= |c.buffer|
    ensures c.buffer[r.from - c.from..r.from - c.from + r.len] == disk[r.from..r.from + r.len]
  {
    var at := r.from - c.from;
    SliceOfSlice(c.buffer, 0, c.len, at, r.len);
    SliceOfSlice(disk, c.from, c.from + c.len, at, r.len);
  }

  lemma SliceOfSlice(s: seq<byte>, lo: nat, hi: nat, at: nat, n: nat)
    requires lo <= hi <= |s| && lo + at + n <= hi
    ensures s[lo..hi][at..at + n] == s[lo + at..lo + at + n]
  {
    var a, b := s[lo..hi][at..at + n], s[lo + at..lo + at + n];
    forall k | 0 <= k < n ensures a[k] == b[k] {
      assert s[lo..hi][at + k] == s[lo + at + k];
    }
  }

  lemma HitBuffer(buf: seq<byte>, header: seq<byte>, data: seq<byte>)
    requires |header| + |data| <= |buf| == RSP_CAPACITY
    ensures var b := IoBuf(Splice(Splice(buf, 0, header), |header|, data), |header| + |data|, 0);
            BufOk(b, RSP_CAPACITY) && b.All() == header + data
  {
  }

  lemma GoodRead(disk: seq<byte>, r: Request)
    requires r.magic == REQUEST_MAGIC && r.typ == REQUEST_READ && r.from + r.len <= |disk| && |r.handle| == 8
    ensures ReplyBytes(disk, r) == ReplyHeader(r.handle, 0) + disk[r.from..r.from + r.len]
  {
  }

  lemma HitReady(p: Proxy, disk: seq<byte>)
    requires BufOk(p.rsp, RSP_CAPACITY) && |p.req.buf| >= REQUEST_SIZE && p.prefetch.Prefetch? && CacheOk(p.prefetch, disk)
    requires |disk| < WORD && p.reqHdr.from + p.reqHdr.len < WORD
    requires CacheHit(p.prefetch, p.reqHdr) && |p.reqHdr.handle| == 8 && p.reqHdr.len <= NBD_MAX_SIZE
    ensures PrefetchReady(p)
  {
    CachedBytes(p.prefetch, disk, p.reqHdr);
  }

  lemma HitResult(p: Proxy, header: seq<byte>, data: seq<byte>)
    requires PrefetchReady(p) && p.state.WriteToUpstream? && p.prefetch.Prefetch? && CacheHit(p.prefetch, p.reqHdr)
    requires BufOk(p.rsp, RSP_CAPACITY) && header == ReplyHeader(p.reqHdr.handle, 0) && |data| == p.reqHdr.len
    requires data == p.prefetch.buffer[p.reqHdr.from - p.prefetch.from..p.reqHdr.from - p.prefetch.from + p.reqHdr.len]
    ensures PrefetchForRequest(p) == p.(state := WriteToDownstream,
              rsp := IoBuf(Splice(Splice(p.rsp.buf, 0, header), |header|, data), |header| + |data|, 0))
  {
  }

  /** The reply built from the cache. */
  lemma HitReply(p: Proxy, disk: seq<byte>)
    requires BufOk(p.rsp, RSP_CAPACITY) && |p.req.buf| >= REQUEST_SIZE && p.prefetch.Prefetch? && CacheOk(p.prefetch, disk)
    requires |disk| < WORD && p.reqHdr.from + p.reqHdr.len < WORD
    requires CacheHit(p.prefetch, p.reqHdr) && |p.reqHdr.handle| == 8 && p.state.WriteToUpstream?
    requires p.reqHdr.magic == REQUEST_MAGIC && p.reqHdr.len <= NBD_MAX_SIZE
    ensures PrefetchReady(p)
    ensures var q := PrefetchForRequest(p);
            && q == p.(rsp := q.rsp, state := WriteToDownstream)
            && BufOk(q.rsp, RSP_CAPACITY) && q.rsp.needle == 0 && q.rsp.All() == ReplyBytes(disk, p.reqHdr)
  {
    var r := p.reqHdr;
    HitReady(p, disk);
    CachedBytes(p.prefetch, disk, r);
    GoodRead(disk, r);
    var header, data := ReplyHeader(r.handle, 0), disk[r.from..r.from + r.len];
    HitResult(p, header, data);
    HitBuffer(p.rsp.buf, header, data);
  }

  lemma HitKeeps(s: Sys)
    requires Ready(s) && s.p.prefetch.Prefetch? && CacheHit(s.p.prefetch, s.p.reqHdr)
    ensures PrefetchReady(s.p)
    ensures Inv(With(s, PrefetchForRequest(s.p)))
  {
    HitReply(s.p, s.w.disk);
    var t := With(s, PrefetchForRequest(s.p));
    assert t.p.rsp.Done() == [];
    assert t.w.given + [] == t.w.given;
  }

  /** The header rewritten in flight. */
  lemma DoubledRequest(p: Proxy, x: Exchange)
    requires BufOk(p.req, REQ_CAPACITY) && IsExchange(x) && p.req.All() == OnWire(x) && x.r.typ == REQUEST_READ
    requires p.reqHdr == x.r && p.prefetch.Prefetch? && !CacheHit(p.prefetch, x.r) && 2 * x.r.len < Pow256(4)
    requires ShouldPrefetch(p.prefetch, p.upstreamSize, x.r)
    ensures var q := PrefetchForRequest(p);
            var doubled := Exchange(x.r.(len := x.r.len * 2), x.payload);
            && q == p.(isPrefetchReq := true, prefetchReqOrigLen := x.r.len, reqHdr := doubled.r, req := q.req)
            && BufOk(q.req, REQ_CAPACITY) && q.req.needle == p.req.needle && q.req.All() == OnWire(doubled)
  {
    var doubled := x.r.(len := x.r.len * 2);
    DoubledResult(p, doubled);
    HeaderOnly(x);
    HeaderOnly(Exchange(doubled, x.payload));
    RewrittenHeader(p.req, EncodeRequest(doubled));
  }

  lemma DoubledResult(p: Proxy, doubled: Request)
    requires |p.req.buf| >= REQUEST_SIZE && |p.reqHdr.handle| == 8 && p.reqHdr.typ == REQUEST_READ && p.prefetch.Prefetch?
    requires !CacheHit(p.prefetch, p.reqHdr) && 2 * p.reqHdr.len < Pow256(4) && ShouldPrefetch(p.prefetch, p.upstreamSize, p.reqHdr)
    requires doubled == p.reqHdr.(len := p.reqHdr.len * 2)
    ensures PrefetchForRequest(p) ==
            p.(isPrefetchReq := true, prefetchReqOrigLen := p.reqHdr.len, reqHdr := doubled,
               req := p.req.(buf := Splice(p.req.buf, 0, EncodeRequest(doubled))))
  {
    Widths();
  }

  lemma HeaderOnly(x: Exchange)
    requires IsExchange(x) && x.r.typ == REQUEST_READ
    ensures OnWire(x) == EncodeRequest(x.r)
  {
  }

  lemma RewrittenHeader(b: IoBuf, header: seq<byte>)
    requires BufOk(b, REQ_CAPACITY) && b.size == |header| == REQUEST_SIZE
    ensures var c := b.(buf := Splice(b.buf, 0, header)); BufOk(c, REQ_CAPACITY) && c.All() == header
  {
  }

  lemma DoubleKeeps(s: Sys)
    requires Ready(s) && s.p.prefetch.Prefetch? && !CacheHit(s.p.prefetch, s.p.reqHdr)
    requires ShouldPrefetch(s.p.prefetch, s.p.upstreamSize, s.p.reqHdr)
    ensures Inv(With(s, PrefetchForRequest(s.p)))
  {
    Widths();
    ShouldPrefetchIff(s.p.prefetch, s.p.upstreamSize, s.p.reqHdr);
    DoubledRequest(s.p, s.w.cur);
  }

  lemma PrefetchKeeps(s: Sys)
    requires Ready(s) && s.p.prefetch.Prefetch?
    ensures PrefetchReady(s.p)
    ensures Inv(With(s, PrefetchForRequest(s.p)))
  {
    var p, r := s.p, s.p.reqHdr;
    if CacheHit(p.prefetch, r) {
      HitKeeps(s);
    } else if r.typ != REQUEST_READ {
      ReadyWithoutCache(s.(p := p.(prefetch := SetFull(p.prefetch, false))));
    } else if ShouldPrefetch(p.prefetch, p.upstreamSize, r) {
      DoubleKeeps(s);
    } else {
      ReadyWithoutCache(s);
    }
  }

  // ----- the client's side -----

  /** A read of at least one byte from a client that behaves. */
  ghost predicate MayRead(s: Sys, data: seq<byte>) {
    && s.p.state.ReadFromDownstream? && data != [] && CanRead(s.p.req, REQUEST_SIZE, Got(data)) && |s.p.req.buf| >= REQUEST_SIZE
    && (var req := IobufRead(s.p.req, REQUEST_SIZE, Got(data));
        req.needle == REQUEST_SIZE ==> ClientBehaves(DecodeRequest(req.buf[..REQUEST_SIZE])))
  }

  /** What proxy_read_from_downstream makes of more bytes: the end, a whole request, or part of one. */
  ghost predicate ReadOutcome(p: Proxy, data: seq<byte>, q: Proxy) {
    && BufOk(q.req, REQ_CAPACITY)
    && q == p.(req := q.req, reqHdr := q.reqHdr, state := q.state)
    && (|| (q.state.Exit? && Harmless(p.req.Done() + data))
        || (q.state.ReadFromDownstream? && PartRead(q) && q.req.Done() == p.req.Done() + data)
        || (&& q.state.WriteToUpstream? && q.req.needle == 0 && q.req.size >= REQUEST_SIZE
            && Accepted(JustRead(q.req)) && JustRead(q.req).r == q.reqHdr
            && OnWire(JustRead(q.req)) == q.req.All() == p.req.Done() + data))
  }

  /** proxy_read_from_downstream on the byte that completes the header. */
  lemma HeaderResult(p: Proxy, data: seq<byte>, req: IoBuf, r: Request)
    requires BufOk(p.req, REQ_CAPACITY) && PartRead(p) && data != [] && CanRead(p.req, REQUEST_SIZE, Got(data))
    requires req == IobufRead(p.req, REQUEST_SIZE, Got(data)) && req.needle == REQUEST_SIZE <= |req.buf|
    requires r == DecodeRequest(req.buf[..REQUEST_SIZE])
    ensures req.size == REQUEST_SIZE
    ensures ReadDownstream(p, Got(data)) ==
            if !TypeOk(r) then p.(req := req, reqHdr := r, state := Exit)
            else if PayloadLength(r) == 0 then p.(req := req.(needle := 0), reqHdr := r, state := WriteToUpstream)
            else p.(req := req.(size := REQUEST_SIZE + r.len), reqHdr := r)
  {
  }

  lemma HeaderRead(p: Proxy, data: seq<byte>)
    requires BufOk(p.req, REQ_CAPACITY) && PartRead(p) && p.state.ReadFromDownstream?
    requires data != [] && CanRead(p.req, REQUEST_SIZE, Got(data)) && p.req.needle + |data| == REQUEST_SIZE
    requires ClientBehaves(DecodeRequest(IobufRead(p.req, REQUEST_SIZE, Got(data)).buf[..REQUEST_SIZE]))
    ensures ReadOutcome(p, data, ReadDownstream(p, Got(data)))
  {
    ReadGrows(p.req, REQ_CAPACITY, REQUEST_SIZE, data);
    var req := IobufRead(p.req, REQUEST_SIZE, Got(data));
    var r := DecodeRequest(req.buf[..REQUEST_SIZE]);
    HeaderResult(p, data, req, r);
    RefusedIsHarmless(req.Done());
    if TypeOk(r) && PayloadLength(r) == 0 {
      RequestComplete(req, r);
      WholeRequest(p, data, req, r);
    } else if TypeOk(r) {
      PayloadToCome(p, data, req, r);
    }
  }

  /** DISCONNECT and over-long requests end the session at their header. */
  lemma RefusedIsHarmless(header: seq<byte>)
    requires |header| == REQUEST_SIZE
    ensures !TypeOk(DecodeRequest(header)) ==> Harmless(header)
  {
    assert header[..REQUEST_SIZE] == header;
  }

  /** So does a request that has not come in full. */
  lemma PartIsHarmless(p: Proxy)
    requires BufOk(p.req, REQ_CAPACITY) && PartRead(p)
    ensures Harmless(p.req.Done())
    ensures forall disk: seq<byte> {:trigger Run(disk, p.req.Done())} :: Run(disk, p.req.Done()).out == []
  {
    var part := p.req.Done();
    if p.req.needle >= REQUEST_SIZE {
      assert part[..REQUEST_SIZE] == p.req.buf[..REQUEST_SIZE];
    }
  }

  lemma WholeRequest(p: Proxy, data: seq<byte>, req: IoBuf, r: Request)
    requires BufOk(req, REQ_CAPACITY) && REQUEST_SIZE <= req.size == req.needle
    requires Accepted(JustRead(req)) && JustRead(req).r == r && OnWire(JustRead(req)) == req.All()
    requires req.Done() == p.req.Done() + data
    ensures ReadOutcome(p, data, p.(req := req.(needle := 0), reqHdr := r, state := WriteToUpstream))
  {
    assert JustRead(req.(needle := 0)) == JustRead(req);
  }

  lemma PayloadToCome(p: Proxy, data: seq<byte>, req: IoBuf, r: Request)
    requires BufOk(req, REQ_CAPACITY) && req.needle == REQUEST_SIZE && p.state.ReadFromDownstream?
    requires r == DecodeRequest(req.buf[..REQUEST_SIZE]) && ClientBehaves(r) && TypeOk(r) && PayloadLength(r) > 0
    requires req.Done() == p.req.Done() + data
    ensures ReadOutcome(p, data, p.(req := req.(size := REQUEST_SIZE + r.len), reqHdr := r))
  {
  }

  lemma SameHeader(b: IoBuf, data: seq<byte>)
    requires BufOk(b, REQ_CAPACITY) && REQUEST_SIZE <= b.needle && CanRead(b, REQUEST_SIZE, Got(data))
    ensures IobufRead(b, REQUEST_SIZE, Got(data)).buf[..REQUEST_SIZE] == b.buf[..REQUEST_SIZE]
  {
  }

  lemma BodyRead(p: Proxy, data: seq<byte>)
    requires BufOk(p.req, REQ_CAPACITY) && PartRead(p) && p.state.ReadFromDownstream?
    requires data != [] && CanRead(p.req, REQUEST_SIZE, Got(data)) && p.req.needle + |data| != REQUEST_SIZE
    ensures ReadOutcome(p, data, ReadDownstream(p, Got(data)))
  {
    ReadGrows(p.req, REQ_CAPACITY, REQUEST_SIZE, data);
    var req := IobufRead(p.req, REQUEST_SIZE, Got(data));
    assert ReadDownstream(p, Got(data)) ==
           if req.needle == req.size then p.(req := req.(needle := 0), state := WriteToUpstream) else p.(req := req);
    if p.req.needle >= REQUEST_SIZE {
      SameHeader(p.req, data);
      if req.needle == req.size {
        RequestComplete(req, p.reqHdr);
        WholeRequest(p, data, req, p.reqHdr);
      }
    }
  }

  /** proxy_read_from_downstream, whatever it has read so far. */
  lemma ReadsRequest(p: Proxy, data: seq<byte>)
    requires BufOk(p.req, REQ_CAPACITY) && PartRead(p) && p.state.ReadFromDownstream?
    requires data != [] && CanRead(p.req, REQUEST_SIZE, Got(data))
    requires var req := IobufRead(p.req, REQUEST_SIZE, Got(data));
             req.needle == REQUEST_SIZE ==> ClientBehaves(DecodeRequest(req.buf[..REQUEST_SIZE]))
    ensures ReadOutcome(p, data, ReadDownstream(p, Got(data)))
  {
    if p.req.needle + |data| == REQUEST_SIZE {
      HeaderRead(p, data);
    } else {
      BodyRead(p, data);
    }
  }

  lemma RequestReady(s: Sys, data: seq<byte>, q: Proxy, cur: Exchange)
    requires Inv(s) && s.p.state.ReadFromDownstream? && BufOk(q.req, REQ_CAPACITY) && q.req.needle == 0
    requires q == s.p.(req := q.req, reqHdr := cur.r, state := WriteToUpstream)
    requires Accepted(cur) && OnWire(cur) == q.req.All() == s.p.req.Done() + data
    ensures Ready(Sys(q, s.w.(taken := s.w.taken + data, cur := cur, curWire := q.req.All())))
  {
    Regroup(s.w.stream, s.p.req.Done(), data);
  }

  lemma TakenAfter(stream: seq<byte>, part: seq<byte>)
    ensures stream <= stream + part && (stream + part)[|stream|..] == part
  {
  }

  lemma StillListening(s: Sys, data: seq<byte>, q: Proxy)
    requires Inv(s) && s.p.state.ReadFromDownstream? && ReadOutcome(s.p, data, q) && !q.state.WriteToUpstream?
    ensures Inv(Sys(q, s.w.(taken := s.w.taken + data)))
  {
    Regroup(s.w.stream, s.p.req.Done(), data);
    TakenAfter(s.w.stream, s.p.req.Done() + data);
  }

  lemma DownReadPart(s: Sys, data: seq<byte>, q: Proxy)
    requires Inv(s) && MayRead(s, data) && q == ReadDownstream(s.p, Got(data)) && !q.state.WriteToUpstream?
    requires ReadOutcome(s.p, data, q)
    ensures Enabled(s, DownRead(data))
    ensures Inv(AfterDownRead(s, data))
  {
    StillListening(s, data, q);
  }

  lemma DownReadWhole(s: Sys, data: seq<byte>, q: Proxy)
    requires Inv(s) && MayRead(s, data) && q == ReadDownstream(s.p, Got(data)) && q.state.WriteToUpstream?
    requires ReadOutcome(s.p, data, q)
    ensures Enabled(s, DownRead(data))
    ensures Inv(AfterDownRead(s, data))
  {
    var t := Sys(q, s.w.(taken := s.w.taken + data, cur := JustRead(q.req), curWire := q.req.All()));
    RequestReady(s, data, q, t.w.cur);
    if q.prefetch.Prefetch? {
      PrefetchKeeps(t);
    } else {
      ReadyWithoutCache(t);
    }
  }

  /** Reading from the client never meets a buffer that is too small, and keeps the invariant. */
  lemma DownReadKeeps(s: Sys, data: seq<byte>)
    requires Inv(s) && MayRead(s, data)
    ensures Enabled(s, DownRead(data))
    ensures Inv(AfterDownRead(s, data))
  {
    ReadsRequest(s.p, data);
    var q := ReadDownstream(s.p, Got(data));
    if q.state.WriteToUpstream? {
      DownReadWhole(s, data, q);
    } else {
      DownReadPart(s, data, q);
    }
  }

  lemma DownReadFailsKeeps(s: Sys)
    requires Inv(s) && Enabled(s, DownReadFails)
    ensures Inv(Apply(s, DownReadFails))
  {
    PartIsHarmless(s.p);
    TakenAfter(s.w.stream, s.p.req.Done());
  }

  lemma DownWriteKeeps(s: Sys, count: nat)
    requires Inv(s) && Enabled(s, DownWrite(count))
    ensures Inv(AfterDownWrite(s, count))
  {
    var rsp := s.p.rsp;
    SplitAt(rsp, RSP_CAPACITY, count);
    var more := rsp.buf[rsp.needle..rsp.needle + count];
    if s.p.helloSent {
      Regroup(s.w.hello + s.w.refOut, rsp.Done(), more);
      Regroup(s.w.hello, s.w.refOut, ReplyBytes(s.w.refDisk, s.w.cur.r));
    }
    var t := AfterDownWrite(s, count);
    if t.p.state.ReadFromDownstream? {
      assert t.p.req.Done() == [];
      assert t.w.taken == t.w.stream + [];
      assert !s.p.helloSent ==> t.w.hello + [] == t.w.hello;
    }
  }

  lemma DownWriteFailsKeeps(s: Sys)
    requires Inv(s) && WireOk(s) && Enabled(s, DownWriteFails)
    ensures Inv(Apply(s, DownWriteFails))
  {
    var w := s.w;
    assert s.p.rsp.Done() <= s.p.rsp.All();
    if s.p.helloSent {
      PrefixAfter(w.hello + w.refOut, s.p.rsp.Done(), s.p.rsp.All());
    } else {
      PrefixAfter([], s.p.rsp.Done(), s.p.rsp.All());
      NothingIsHarmless();
      assert w.taken[|w.stream|..] == [];
      assert w.hello + w.refOut == w.hello;
    }
  }

  lemma NothingIsHarmless()
    ensures Harmless([])
  {
  }

  lemma PrefixAfter(a: seq<byte>, b: seq<byte>, c: seq<byte>)
    requires b <= c
    ensures a + b <= a + c
  {
  }
}
