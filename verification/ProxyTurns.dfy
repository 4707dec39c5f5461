/**
 What each turn of proxy_session comes to, in plain numbers and whatever the proxy held before:
 which requests and greetings it takes, what it answers itself, when it asks for more than it was
 asked for, and where it goes from there (src/proxy/proxy.c:320-701).
 */
module ProxyTurns {
  import opened Bytes
  import opened Wire
  import opened ProxyCode

  // ----- a request from the client -----

  /** The proxy gives up on a client that says this: DISCONNECT, or a read or write of more than 32 MiB. */
  predicate Unwelcome(r: Request) {
    r.typ == 2 || ((r.typ == 0 || r.typ == 1) && r.len > 33554432)
  }

  /** Bytes of a request arrive: short of its header, at its header, or past it. */
  lemma RequestRead(p: Proxy, data: seq<byte>)
    requires p.state.ReadFromDownstream? && CanRead(p.req, 28, Got(data)) && p.req.needle + |data| <= 28 <= |p.req.buf|
    ensures var q := ReadDownstream(p, Got(data));
            var header := Splice(p.req.buf, p.req.needle, data)[..28];
            && q == p.(state := q.state, req := q.req, reqHdr := q.reqHdr) && q.req.buf == Splice(p.req.buf, p.req.needle, data)
            && (p.req.needle + |data| < 28 && Opened(p.req, 28).size == 28 ==>
                  q.state.ReadFromDownstream? && q.req.needle == p.req.needle + |data| && q.reqHdr == p.reqHdr)
            && (p.req.needle + |data| == 28 && Opened(p.req, 28).size == 28 ==>
                  var r := DecodeRequest(header);
                  && q.reqHdr == r
                  && (q.state.Exit? <==> Unwelcome(r))
                  && (q.state.WriteToUpstream? <==> !Unwelcome(r) && (r.typ != 1 || r.len == 0))
                  && (q.state.ReadFromDownstream? <==> !Unwelcome(r) && r.typ == 1 && r.len > 0)
                  && (!Unwelcome(r) ==> q.req.size == if r.typ == 1 then 28 + r.len else 28)
                  && (q.state.WriteToUpstream? ==> q.req.needle == 0)
                  && (q.state.ReadFromDownstream? ==> q.req.needle == 28))
  {
  }

  /** The payload of a write arrives. */
  lemma PayloadRead(p: Proxy, data: seq<byte>)
    requires p.state.ReadFromDownstream? && 28 <= p.req.needle < p.req.size && data != [] && CanRead(p.req, 28, Got(data))
    ensures var q := ReadDownstream(p, Got(data));
            && q.reqHdr == p.reqHdr && q.req.size == p.req.size
            && q.req.buf == Splice(p.req.buf, p.req.needle, data)
            && (if p.req.needle + |data| == p.req.size then q.state.WriteToUpstream? && q.req.needle == 0
                else q.state.ReadFromDownstream? && q.req.needle == p.req.needle + |data|)
  {
  }

  // ----- the cache -----

  /** The request asks for nothing but what the cache holds. */
  predicate Holds(c: Prefetch, r: Request) {
    c.Prefetch? && c.isFull && r.typ == 0 && c.from <= r.from && r.from + r.len <= c.from + c.len
  }

  /** The reply the cache gives: magic, no error, the handle and the bytes. */
  function FromCache(c: Prefetch, r: Request): seq<byte>
    requires Holds(c, r) && c.len <= |c.buffer|
  {
    [0x67, 0x44, 0x66, 0x98, 0, 0, 0, 0] + r.handle + c.buffer[r.from - c.from..r.from - c.from + r.len]
  }

  /** The sums below do not wrap. */
  predicate Plain(p: Proxy) {
    && p.reqHdr.from + p.reqHdr.len < WORD && |p.reqHdr.handle| == 8 && |p.req.buf| >= 28
    && (p.prefetch.Prefetch? ==> p.prefetch.from + p.prefetch.len < WORD && p.prefetch.len <= |p.prefetch.buffer|)
    && 16 + p.reqHdr.len <= |p.rsp.buf|
  }

  lemma HitIff(p: Proxy)
    requires Plain(p)
    ensures CacheHit(p.prefetch, p.reqHdr) <==> Holds(p.prefetch, p.reqHdr)
  {
    if p.prefetch.Prefetch? {
      ContainsIff(p.prefetch, p.reqHdr.from, p.reqHdr.len);
    }
  }

  /** A request the cache holds is answered from it, without the server; any other goes on to the server. */
  lemma CacheAnswersIff(p: Proxy)
    requires Plain(p) && p.state.WriteToUpstream?
    ensures CacheHit(p.prefetch, p.reqHdr) ==> p.reqHdr.from - p.prefetch.from + p.reqHdr.len <= |p.prefetch.buffer|
    ensures var q := PrefetchForRequest(p);
            && (q.state.WriteToDownstream? <==> Holds(p.prefetch, p.reqHdr))
            && (q.state.WriteToUpstream? <==> !Holds(p.prefetch, p.reqHdr))
            && (Holds(p.prefetch, p.reqHdr) ==>
                  && q.rsp.All() == FromCache(p.prefetch, p.reqHdr) && q.rsp.needle == 0
                  && q == p.(state := q.state, rsp := q.rsp))
  {
    HitIff(p);
    if Holds(p.prefetch, p.reqHdr) {
      ReplyFields(0, p.reqHdr.handle);
      CachedBytes(p);
    }
  }

  lemma CachedBytes(p: Proxy)
    requires Plain(p) && Holds(p.prefetch, p.reqHdr)
    ensures CacheReply(p).All() == EncodeReply(Reply(REPLY_MAGIC, 0, p.reqHdr.handle))
                                   + p.prefetch.buffer[p.reqHdr.from - p.prefetch.from..p.reqHdr.from - p.prefetch.from + p.reqHdr.len]
  {
    var at := p.reqHdr.from - p.prefetch.from;
    var head, data := EncodeReply(Reply(REPLY_MAGIC, 0, p.reqHdr.handle)), p.prefetch.buffer[at..at + p.reqHdr.len];
    HeadAndData(p.rsp.buf, head, data);
  }

  lemma HeadAndData(buf: seq<byte>, head: seq<byte>, data: seq<byte>)
    requires |head| == 16 && 16 + |data| <= |buf|
    ensures Splice(Splice(buf, 0, head), 16, data)[..16 + |data|] == head + data
  {
  }

  /** A read that is not in the cache is doubled exactly when there is a cache it fits and both halves lie on the disk. */
  predicate Doubles(p: Proxy) {
    && p.prefetch.Prefetch? && p.reqHdr.typ == 0 && 0 < p.reqHdr.len <= p.prefetch.size
    && p.reqHdr.from + 2 * p.reqHdr.len <= p.upstreamSize
  }

  lemma DoublesIff(p: Proxy)
    requires Plain(p) && p.reqHdr.len < 0x8000_0000 && p.upstreamSize < WORD
    requires !Holds(p.prefetch, p.reqHdr) && p.state.WriteToUpstream? && !p.isPrefetchReq
    ensures !CacheHit(p.prefetch, p.reqHdr)
    ensures var q := PrefetchForRequest(p);
            && (q.isPrefetchReq <==> Doubles(p))
            && q.reqHdr == (if Doubles(p) then p.reqHdr.(len := 2 * p.reqHdr.len) else p.reqHdr)
            && (Doubles(p) ==> q.prefetchReqOrigLen == p.reqHdr.len)
            && q.req.buf == (if Doubles(p) then Splice(p.req.buf, 0, EncodeRequest(q.reqHdr)) else p.req.buf)
            && q.req.size == p.req.size && q.req.needle == p.req.needle
            && q.prefetch == if p.prefetch.Prefetch? && p.reqHdr.typ != 0 then p.prefetch.(isFull := false) else p.prefetch
  {
    HitIff(p);
    ShouldIff(p);
  }

  lemma ShouldIff(p: Proxy)
    requires p.reqHdr.from + p.reqHdr.len < WORD && p.reqHdr.len < 0x8000_0000 && p.upstreamSize < WORD
    ensures ShouldPrefetch(p.prefetch, p.upstreamSize, p.reqHdr) <==> Doubles(p)
    ensures p.reqHdr.len * 2 % 0x1_0000_0000 == 2 * p.reqHdr.len
  {
    var r := p.reqHdr;
    assert r.len * 2 % 0x1_0000_0000 == 2 * r.len;
    if r.from + 2 * r.len < WORD {
      assert PrefetchEnd(r) == r.from + 2 * r.len;
    } else {
      assert PrefetchEnd(r) == r.from + 2 * r.len - WORD;
    }
  }

  /** The reply to a read of `n` bytes that was doubled has come in full. */
  predicate DoubleReply(p: Proxy, n: nat) {
    && p.isPrefetchReq && p.prefetch.Prefetch? && p.prefetchReqOrigLen == n && p.reqHdr.len == 2 * n
    && n <= |p.prefetch.buffer| && p.rsp.size == 16 + 2 * n <= |p.rsp.buf| && p.reqHdr.from + 2 * n < WORD
  }

  /** Its second half is what the cache then holds, and only the first half is passed on. */
  lemma FillsCache(p: Proxy, n: nat)
    requires DoubleReply(p, n)
    ensures var q := PrefetchForReply(p);
            && q.prefetch.isFull && q.prefetch.from == p.reqHdr.from + n && q.prefetch.len == n
            && |q.prefetch.buffer| == |p.prefetch.buffer|
            && q.prefetch.buffer[..n] == p.rsp.buf[16 + n..16 + 2 * n]
            && q.rsp.All() == p.rsp.buf[..16 + n] && q.reqHdr.len == n && !q.isPrefetchReq
            && q == p.(prefetch := q.prefetch, reqHdr := q.reqHdr, rsp := q.rsp, isPrefetchReq := false)
  {
    var half := p.rsp.buf[16 + n..16 + 2 * n];
    assert 16 + n + (p.reqHdr.len - n) == 16 + 2 * n;
    assert PrefetchForReply(p).prefetch.buffer == Splice(p.prefetch.buffer, 0, half);
    BeginsWith(p.prefetch.buffer, half);
  }

  lemma BeginsWith(s: seq<byte>, data: seq<byte>)
    requires |data| <= |s|
    ensures Splice(s, 0, data)[..|data|] == data
  {
  }

  /** The next request is a read inside the second half. */
  predicate ReadsOn(from: nat, n: nat, q: Proxy) {
    && q.state.WriteToUpstream? && q.reqHdr.typ == 0 && |q.reqHdr.handle| == 8
    && |q.req.buf| >= 28 && 16 + q.reqHdr.len <= |q.rsp.buf|
    && from + n <= q.reqHdr.from && q.reqHdr.from + q.reqHdr.len <= from + 2 * n
  }

  lemma SecondHalfHeld(p: Proxy, n: nat, q: Proxy)
    requires DoubleReply(p, n) && ReadsOn(p.reqHdr.from, n, q) && q.prefetch == PrefetchForReply(p).prefetch
    ensures Plain(q) && Holds(q.prefetch, q.reqHdr)
    ensures var k := 16 + (q.reqHdr.from - p.reqHdr.from);
            FromCache(q.prefetch, q.reqHdr)
            == [0x67, 0x44, 0x66, 0x98, 0, 0, 0, 0] + q.reqHdr.handle + p.rsp.buf[k..k + q.reqHdr.len]
  {
    FillsCache(p, n);
    SamePart(q.prefetch.buffer, p.rsp.buf, n, q.reqHdr.from - q.prefetch.from, q.reqHdr.len);
  }

  lemma SamePart(cache: seq<byte>, reply: seq<byte>, n: nat, k: nat, len: nat)
    requires n <= |cache| && 16 + 2 * n <= |reply| && cache[..n] == reply[16 + n..16 + 2 * n] && k + len <= n
    ensures cache[k..k + len] == reply[16 + n + k..16 + n + k + len]
  {
    var a, b := cache[k..k + len], reply[16 + n + k..16 + n + k + len];
    forall i | 0 <= i < len ensures a[i] == b[i] {
      assert cache[..n][k + i] == reply[16 + n..16 + 2 * n][k + i];
    }
  }

  /**
   What the cache is for: after a doubled reply to a read of [a, a + n), a read inside [a + n, a + 2n)
   is answered without the server, with the bytes the server sent.
   */
  lemma SequentialReads(p: Proxy, n: nat, q: Proxy)
    requires DoubleReply(p, n) && ReadsOn(p.reqHdr.from, n, q) && q.prefetch == PrefetchForReply(p).prefetch
    ensures CacheHit(q.prefetch, q.reqHdr) ==> q.reqHdr.from - q.prefetch.from + q.reqHdr.len <= |q.prefetch.buffer|
    ensures var k := 16 + (q.reqHdr.from - p.reqHdr.from);
            var done := PrefetchForRequest(q);
            && done.state.WriteToDownstream? && done.rsp.needle == 0
            && done.rsp.All() == [0x67, 0x44, 0x66, 0x98, 0, 0, 0, 0] + q.reqHdr.handle + p.rsp.buf[k..k + q.reqHdr.len]
  {
    SecondHalfHeld(p, n, q);
    CacheAnswersIff(q);
  }

  // ----- the server -----

  /** A new connection: nothing cached, nothing sent, nothing read. */
  lemma ConnectForgets(p: Proxy)
    ensures var q := Connected(p);
            && q.state.ReadInitFromUpstream? && !IsFull(q.prefetch)
            && q.init.needle == 0 && q.req.needle == 0 && q.rsp.needle == 0
            && q.req.size == p.req.size && q.req.buf == p.req.buf && q.reqHdr == p.reqHdr
            && q.isPrefetchReq == p.isPrefetchReq && q.prefetchReqOrigLen == p.prefetchReqOrigLen
  {
  }

  /** A complete greeting is taken exactly if it is an NBD server's; any other means another connection. */
  lemma GreetingIff(p: Proxy, data: seq<byte>)
    requires CanRead(p.init, 152, Got(data)) && |p.init.buf| == 152 && Opened(p.init, 152).size == 152
    ensures var q := ReadInit(p, Got(data));
            var greeting := Splice(p.init.buf, p.init.needle, data);
            if p.init.needle + |data| < 152 then
              q.state == p.state && q.upstreamSize == p.upstreamSize && q.upstreamFlags == p.upstreamFlags
            else if greeting[..16] == [78, 66, 68, 77, 65, 71, 73, 67, 0, 0, 66, 2, 129, 134, 18, 83] then
              && q.state.WriteToUpstream?
              && q.upstreamSize == FromBE(greeting[16..24]) && q.upstreamFlags == FromBE(greeting[24..28])
            else
              q.state.ConnectToUpstream? && q.upstreamSize == p.upstreamSize && q.upstreamFlags == p.upstreamFlags
  {
    HelloIff(Splice(p.init.buf, p.init.needle, data));
  }

  /** A reply: the header with another magic means another connection; otherwise all of it is waited for. */
  lemma ReplyRead(p: Proxy, data: seq<byte>)
    requires p.state.ReadFromUpstream? && data != [] && CanRead(p.rsp, 16, Got(data)) && 16 <= |p.rsp.buf|
    requires (p.rsp.needle < 16 ==> Opened(p.rsp, 16).size == 16)
    ensures var q := ReadUpstream(p, Got(data));
            var buf := Splice(p.rsp.buf, p.rsp.needle, data);
            var got := p.rsp.needle + |data|;
            var more := if p.reqHdr.typ == 0 then p.reqHdr.len else 0;
            && q == p.(state := q.state, rsp := q.rsp) && q.rsp.buf == buf
            && (got < 16 ==> q.state == p.state && q.rsp.needle == got)
            && (got == 16 ==>
                  if FromBE(buf[0..4]) != 0x67446698 then q.state.ConnectToUpstream?
                  else if more == 0 then q.state.WriteToDownstream? && q.rsp.size == 16 && q.rsp.needle == 0
                  else q.state == p.state && q.rsp.size == 16 + more && q.rsp.needle == 16)
            && (got > 16 ==>
                  if got == p.rsp.size then q.state.WriteToDownstream? && q.rsp.needle == 0 && q.rsp.size == got
                  else q.state == p.state && q.rsp.needle == got && q.rsp.size == p.rsp.size)
  {
    var buf := Splice(p.rsp.buf, p.rsp.needle, data);
    assert buf[..16][0..4] == buf[0..4];
  }

  /** Anything that fails towards the server means another connection, towards the client the end. */
  lemma FailuresMean(p: Proxy)
    requires CanWrite(p.req, WriteFailed) && CanRead(p.rsp, 16, ReadFailed) && CanRead(p.init, 152, ReadFailed)
    ensures WriteUpstream(p, WriteFailed).state.ConnectToUpstream?
    ensures ReadUpstream(p, ReadFailed).state.ConnectToUpstream?
    ensures ReadInit(p, ReadFailed).state.ConnectToUpstream?
    ensures ReadDownstream(p, ReadFailed).state.Exit?
    ensures WriteDownstream(p, WriteFailed).state.Exit?
  {
  }

  // ----- writing -----

  /** A client is greeted with the size and flags of the server, and counted from nothing. */
  lemma SessionBegins(p: Proxy)
    requires |p.rsp.buf| >= 152
    ensures var q := BeginSession(p);
            && q.state.WriteToDownstream? && q.rsp.needle == 0 && !q.helloSent && q.reqCount == 0
            && q.rsp.All() == EncodeHello(p.upstreamSize, p.upstreamFlags)
            && q == p.(state := q.state, rsp := q.rsp, helloSent := false, reqCount := 0)
  {
    BeginsWith(p.rsp.buf, EncodeHello(p.upstreamSize, p.upstreamFlags));
  }

  /** The request goes to the server, then its reply is awaited. */
  lemma RequestWritten(p: Proxy, count: nat)
    requires p.state.WriteToUpstream? && CanWrite(p.req, Took(count))
    ensures var q := WriteUpstream(p, Took(count));
            && q == p.(state := q.state, req := q.req) && q.req.buf == p.req.buf && q.req.size == p.req.size
            && (if p.req.needle + count == p.req.size then q.state.ReadFromUpstream? && q.req.needle == 0
                else q.state == p.state && q.req.needle == p.req.needle + count)
  {
  }

  /** The reply goes to the client, is counted, and the next request is awaited; the hello is not counted. */
  lemma ReplyWritten(p: Proxy, count: nat)
    requires p.state.WriteToDownstream? && CanWrite(p.rsp, Took(count))
    ensures var q := WriteDownstream(p, Took(count));
            && q == p.(state := q.state, req := q.req, rsp := q.rsp, helloSent := q.helloSent, reqCount := q.reqCount)
            && (if p.rsp.needle + count == p.rsp.size then
                  && q.state.ReadFromDownstream? && q.helloSent && q.reqCount == p.reqCount + (if p.helloSent then 1 else 0)
                  && q.req.size == q.req.needle == q.rsp.size == q.rsp.needle == 0
                else
                  && q.state == p.state && q.helloSent == p.helloSent && q.reqCount == p.reqCount
                  && q.req == p.req && q.rsp == p.rsp.(needle := p.rsp.needle + count))
  {
  }
}
