/**
 The functions of src/proxy/proxy.c, src/proxy/prefetch.c and the iobuf helpers of
 src/common/ioutil.c, as functions on the proxy's state.  What a read() or write() returned is
 an argument.
 */
module ProxyCode {
  import opened Bytes
  import opened Wire

  const REQ_CAPACITY: nat := NBD_MAX_SIZE + REQUEST_SIZE
  const RSP_CAPACITY: nat := NBD_MAX_SIZE + REPLY_SIZE

  /** `struct iobuf`; the length of `buf` is the allocated size. */
  datatype IoBuf = IoBuf(buf: seq<byte>, size: nat, needle: nat) {
    function Left(): nat {
      if needle <= size then size - needle else 0
    }
    /** The bytes already transferred, and the bytes the buffer is to hold in all. */
    function Done(): seq<byte> {
      if needle <= |buf| then buf[..needle] else buf
    }
    function All(): seq<byte> {
      if size <= |buf| then buf[..size] else buf
    }
  }

  /** The outcome of a read(): some bytes (none for EAGAIN), or end of file or an error. */
  datatype Input = Got(data: seq<byte>) | ReadFailed

  /** The outcome of a write(): how much it took, or an error. */
  datatype Output = Took(count: nat) | WriteFailed

  /** The size of the buffer during a read: a fresh one gets the default size. */
  function Opened(b: IoBuf, defaultSize: nat): IoBuf {
    if b.needle == 0 then b.(size := defaultSize) else b
  }

  predicate CanRead(b: IoBuf, defaultSize: nat, input: Input) {
    input.Got? ==>
      && Opened(b, defaultSize).needle + |input.data| <= Opened(b, defaultSize).size
      && Opened(b, defaultSize).size <= |b.buf|
  }

  /** iobuf_read */
  function IobufRead(b: IoBuf, defaultSize: nat, input: Input): IoBuf
    requires CanRead(b, defaultSize, input)
  {
    var o := Opened(b, defaultSize);
    if input.ReadFailed? then o
    else o.(buf := Splice(o.buf, o.needle, input.data), needle := o.needle + |input.data|)
  }

  predicate CanWrite(b: IoBuf, output: Output) {
    output.Took? ==> b.needle + output.count <= b.size <= |b.buf|
  }

  /** iobuf_write */
  function IobufWrite(b: IoBuf, output: Output): IoBuf
    requires CanWrite(b, output)
  {
    if output.WriteFailed? then b else b.(needle := b.needle + output.count)
  }

  datatype ProxyState =
    | Exit
    | WriteToDownstream
    | ReadFromDownstream
    | ConnectToUpstream
    | ReadInitFromUpstream
    | WriteToUpstream
    | ReadFromUpstream

  /** `struct prefetch`: `buffer` holds what was last put there, `size` is its capacity. */
  datatype Prefetch = NoPrefetch | Prefetch(isFull: bool, from: nat, len: nat, size: nat, buffer: seq<byte>)

  datatype Proxy = Proxy(
    state: ProxyState,
    init: IoBuf, req: IoBuf, rsp: IoBuf,
    reqHdr: Request,
    upstreamSize: nat, upstreamFlags: nat,
    helloSent: bool, reqCount: nat,
    isPrefetchReq: bool, prefetchReqOrigLen: nat,
    prefetch: Prefetch)

  // ----- prefetch.c -----

  function SetFull(c: Prefetch, val: bool): Prefetch {
    if c.Prefetch? then c.(isFull := val) else c
  }

  predicate IsFull(c: Prefetch) {
    c.Prefetch? && c.isFull
  }

  function PrefetchSize(c: Prefetch): nat {
    if c.Prefetch? then c.size else 0
  }

  predicate Contains(c: Prefetch, from: nat, len: nat)
    requires c.Prefetch?
  {
    from >= c.from && (from + len) % WORD <= (c.from + c.len) % WORD
  }

  /** The range lies in the cached one. */
  predicate Within(c: Prefetch, from: nat, len: nat)
    requires c.Prefetch?
  {
    c.from <= from && from + len <= c.from + c.len
  }

  /** The sums of two uint64_t make the test right exactly if the request's does not wrap round into the cache. */
  lemma ContainsIff(c: Prefetch, from: nat, len: nat)
    requires c.Prefetch? && from < WORD && len < WORD && c.from + c.len < WORD
    ensures (Contains(c, from, len) <==> Within(c, from, len)) <==>
            from < c.from || from + len < WORD || from + len - WORD > c.from + c.len
  {
  }

  // ----- proxy.c -----

  /** A request that ends the session at its header. */
  predicate EndsSession(r: Request) {
    r.typ == REQUEST_DISCONNECT || ((r.typ == REQUEST_READ || r.typ == REQUEST_WRITE) && r.len > NBD_MAX_SIZE)
  }

  /** proxy_read_from_downstream */
  function ReadDownstream(p: Proxy, input: Input): Proxy
    requires CanRead(p.req, REQUEST_SIZE, input)
  {
    var req := IobufRead(p.req, REQUEST_SIZE, input);
    var header := input.Got? && req.needle == REQUEST_SIZE <= |req.buf|;
    var r := if header then DecodeRequest(req.buf[..REQUEST_SIZE]) else p.reqHdr;
    var ends := input.ReadFailed? || (header && EndsSession(r));
    var size := if header && !ends && r.typ == REQUEST_WRITE then req.size + r.len else req.size;
    var whole := !ends && req.needle == size;
    p.(req := req.(size := size, needle := if whole then 0 else req.needle),
       reqHdr := r,
       state := if ends then Exit else if whole then WriteToUpstream else p.state)
  }

  /** uint32_t arithmetic of `req->len * 2`, then uint64_t arithmetic of the sum. */
  function PrefetchEnd(r: Request): nat {
    (r.from + (r.len * 2) % 0x1_0000_0000) % 0x1_0000_0000_0000_0000
  }

  /** The test for doubling a read (380-384). */
  predicate ShouldPrefetch(c: Prefetch, upstreamSize: nat, r: Request) {
    && r.len <= PrefetchSize(c)
    && r.typ == REQUEST_READ
    && r.from < PrefetchEnd(r)
    && PrefetchEnd(r) <= upstreamSize
  }

  predicate CacheHit(c: Prefetch, r: Request) {
    r.typ == REQUEST_READ && IsFull(c) && Contains(c, r.from, r.len)
  }

  /** The reply built from the cache (341-354). */
  function CacheReply(p: Proxy): IoBuf
    requires |p.reqHdr.handle| == 8 && p.prefetch.Prefetch? && REPLY_SIZE + p.reqHdr.len <= |p.rsp.buf|
    requires 0 <= p.reqHdr.from - p.prefetch.from && p.reqHdr.from - p.prefetch.from + p.reqHdr.len <= |p.prefetch.buffer|
  {
    var at := p.reqHdr.from - p.prefetch.from;
    var header := Splice(p.rsp.buf, 0, EncodeReply(Reply(REPLY_MAGIC, 0, p.reqHdr.handle)));
    IoBuf(Splice(header, REPLY_SIZE, p.prefetch.buffer[at..at + p.reqHdr.len]), REPLY_SIZE + p.reqHdr.len, 0)
  }

  /** proxy_prefetch_for_request */
  function PrefetchForRequest(p: Proxy): Proxy
    requires |p.reqHdr.handle| == 8 && |p.req.buf| >= REQUEST_SIZE
    requires CacheHit(p.prefetch, p.reqHdr) ==>
               && REPLY_SIZE + p.reqHdr.len <= |p.rsp.buf|
               && p.reqHdr.from - p.prefetch.from + p.reqHdr.len <= |p.prefetch.buffer|
  {
    var r := p.reqHdr;
    if CacheHit(p.prefetch, r) then p.(rsp := CacheReply(p), state := WriteToDownstream)
    else
      var double := ShouldPrefetch(p.prefetch, p.upstreamSize, r);
      var sent := if double then r.(len := r.len * 2 % 0x1_0000_0000) else r;
      p.(prefetch := if r.typ == REQUEST_READ then p.prefetch else SetFull(p.prefetch, false),
         isPrefetchReq := p.isPrefetchReq || double,
         prefetchReqOrigLen := if double then r.len else p.prefetchReqOrigLen,
         reqHdr := sent,
         req := if double then p.req.(buf := Splice(p.req.buf, 0, EncodeRequest(sent))) else p.req)
  }

  /** proxy_prefetch_for_reply */
  function PrefetchForReply(p: Proxy): Proxy
    requires p.isPrefetchReq ==>
               && p.prefetch.Prefetch? && p.prefetchReqOrigLen <= p.reqHdr.len
               && p.reqHdr.len - p.prefetchReqOrigLen <= |p.prefetch.buffer|
               && REPLY_SIZE + p.reqHdr.len <= |p.rsp.buf|
               && p.reqHdr.len - p.prefetchReqOrigLen <= p.rsp.size
  {
    if !p.isPrefetchReq then p
    else
      var orig := p.prefetchReqOrigLen;
      var n := p.reqHdr.len - orig;
      p.(prefetch := p.prefetch.(
           buffer := Splice(p.prefetch.buffer, 0, p.rsp.buf[REPLY_SIZE + orig..REPLY_SIZE + orig + n]),
           from := p.reqHdr.from + orig, len := n, isFull := true),
         reqHdr := p.reqHdr.(len := orig),
         rsp := p.rsp.(size := p.rsp.size - n),
         isPrefetchReq := false)
  }

  /** proxy_continue_connecting_to_upstream, once the socket is connected. */
  function Connected(p: Proxy): Proxy {
    p.(prefetch := SetFull(p.prefetch, false),
       init := p.init.(needle := 0, size := 0),
       rsp := p.rsp.(needle := 0, size := 0),
       req := p.req.(needle := 0),
       state := ReadInitFromUpstream)
  }

  /** proxy_read_init_from_upstream */
  function ReadInit(p: Proxy, input: Input): Proxy
    requires CanRead(p.init, INIT_SIZE, input)
  {
    var init := IobufRead(p.init, INIT_SIZE, input);
    var whole := input.Got? && init.needle == init.size && |init.buf| == INIT_SIZE;
    var (ok, size, flags) := if whole then CheckHello(init.buf) else (false, 0, 0);
    p.(init := if ok then init.(needle := 0) else init,
       upstreamSize := if ok then size else p.upstreamSize,
       upstreamFlags := if ok then flags else p.upstreamFlags,
       state := if ok then WriteToUpstream else if whole || input.ReadFailed? then ConnectToUpstream else p.state)
  }

  /** proxy_write_to_upstream */
  function WriteUpstream(p: Proxy, output: Output): Proxy
    requires CanWrite(p.req, output)
  {
    var req := IobufWrite(p.req, output);
    var whole := output.Took? && req.needle == req.size;
    p.(req := if whole then req.(needle := 0) else req,
       state := if output.WriteFailed? then ConnectToUpstream else if whole then ReadFromUpstream else p.state)
  }

  /** proxy_read_from_upstream */
  function ReadUpstream(p: Proxy, input: Input): Proxy
    requires CanRead(p.rsp, REPLY_SIZE, input)
  {
    var rsp := IobufRead(p.rsp, REPLY_SIZE, input);
    var header := input.Got? && rsp.needle == REPLY_SIZE <= |rsp.buf|;
    var fails := input.ReadFailed? || (header && DecodeReply(rsp.buf[..REPLY_SIZE]).magic != REPLY_MAGIC);
    var size := if header && !fails && p.reqHdr.typ == REQUEST_READ then rsp.size + p.reqHdr.len else rsp.size;
    var whole := !fails && size == rsp.needle;
    p.(rsp := rsp.(size := size, needle := if whole then 0 else rsp.needle),
       state := if fails then ConnectToUpstream else if whole then WriteToDownstream else p.state)
  }

  /** proxy_write_to_downstream */
  function WriteDownstream(p: Proxy, output: Output): Proxy
    requires CanWrite(p.rsp, output)
  {
    var rsp := IobufWrite(p.rsp, output);
    var whole := output.Took? && rsp.needle == rsp.size;
    p.(helloSent := p.helloSent || whole,
       reqCount := if whole && p.helloSent then p.reqCount + 1 else p.reqCount,
       req := if whole then p.req.(size := 0, needle := 0) else p.req,
       rsp := if whole then rsp.(size := 0, needle := 0) else rsp,
       state := if output.WriteFailed? then Exit else if whole then ReadFromDownstream else p.state)
  }

  /** The top of proxy_session: the hello for a new downstream client. */
  function BeginSession(p: Proxy): Proxy
    requires |p.rsp.buf| >= INIT_SIZE
  {
    p.(rsp := IoBuf(Splice(p.rsp.buf, 0, EncodeHello(p.upstreamSize, p.upstreamFlags)), INIT_SIZE, 0),
       helloSent := false, reqCount := 0,
       state := WriteToDownstream)
  }

  predicate IsUpstreamState(s: ProxyState) {
    s.ConnectToUpstream? || s.ReadInitFromUpstream? || s.WriteToUpstream? || s.ReadFromUpstream?
  }
}
