/**
 The proxy between a client and an upstream NBD server, as interleaved steps: one turn of the
 loop in proxy_session (src/proxy/proxy.c:712-889) with whatever its read() or write() returned,
 a time-out, or the server storing and answering.
 */
module ProxySystem {
  import opened Bytes
  import opened Wire
  import opened NaiveDisk
  import opened ProxyCode

  /** A request with its payload. */
  datatype Exchange = Exchange(r: Request, payload: seq<byte>)

  predicate IsExchange(x: Exchange) {
    |x.r.handle| == 8 && |x.payload| == PayloadLength(x.r)
  }

  /** The request as it crosses the wire. */
  function OnWire(x: Exchange): seq<byte>
    requires IsExchange(x)
  {
    EncodeRequest(x.r) + x.payload
  }

  /** The upstream connection: bytes the server has but has not answered, and bytes on their way back. */
  datatype Conn = NoConn | Conn(inbox: seq<byte>, outbox: seq<byte>)

  /**
   Everything around the proxy.  `taken` and `given` are all the bytes read from and written to the
   current client.  Beside them runs the reference: `refDisk` and `refOut` are the disk and the
   replies after the requests in `stream`, each applied once to the disk `first` of the session's
   start.  `cur` is the request in hand, `curWire` its bytes as read and `queued` its bytes as
   queued for upstream.
   */
  datatype World = World(disk: seq<byte>, hello: seq<byte>, conn: Conn,
                         taken: seq<byte>, given: seq<byte>,
                         first: seq<byte>, stream: seq<byte>, refDisk: seq<byte>, refOut: seq<byte>,
                         cur: Exchange, curWire: seq<byte>, queued: seq<byte>)

  datatype Sys = Sys(p: Proxy, w: World)

  datatype Step =
    | DownRead(data: seq<byte>)
    | DownReadFails
    | DownWrite(count: nat)
    | DownWriteFails
    | NewSession
    | ConnectSucceeds
    | ConnectFails
    | InitRead(count: nat)
    | InitReadFails
    | UpWrite(count: nat)
    | UpWriteFails
    | UpRead(count: nat)
    | UpReadFails
    | TimeOut
    | ServerStores(count: nat)
    | ServerAnswers

  /** The server has a whole request. */
  predicate RequestArrived(inbox: seq<byte>) {
    && |inbox| >= REQUEST_SIZE
    && |inbox| >= REQUEST_SIZE + PayloadLength(DecodeRequest(inbox[..REQUEST_SIZE]))
  }

  /** The first request in the server's hands, as far as it has come. */
  function Arrived(inbox: seq<byte>): (x: Exchange)
    requires |inbox| >= REQUEST_SIZE
    ensures |x.r.handle| == 8 && |x.payload| <= PayloadLength(x.r)
  {
    var r := DecodeRequest(inbox[..REQUEST_SIZE]);
    var rest := inbox[REQUEST_SIZE..];
    Exchange(r, rest[..Min(PayloadLength(r), |rest|)])
  }

  /** What the client is trusted with: the right magic, and a range that does not wrap. */
  predicate ClientBehaves(r: Request) {
    r.magic == REQUEST_MAGIC && r.from + r.len < WORD
  }

  predicate Enabled(s: Sys, a: Step) {
    var p, w := s.p, s.w;
    match a
    // readiness means at least one byte
    case DownRead(data) =>
      && p.state.ReadFromDownstream? && data != [] && CanRead(p.req, REQUEST_SIZE, Got(data)) && |p.req.buf| >= REQUEST_SIZE
      && (var req := IobufRead(p.req, REQUEST_SIZE, Got(data));
          req.needle == REQUEST_SIZE ==> ClientBehaves(DecodeRequest(req.buf[..REQUEST_SIZE])))
      && PrefetchReady(ReadDownstream(p, Got(data)))
    case DownReadFails => p.state.ReadFromDownstream?
    case DownWrite(count) => p.state.WriteToDownstream? && CanWrite(p.rsp, Took(count))
    case DownWriteFails => p.state.WriteToDownstream?
    case NewSession => p.state.Exit? && |p.rsp.buf| >= INIT_SIZE
    case ConnectSucceeds => p.state.ConnectToUpstream?
    case ConnectFails => p.state.ConnectToUpstream?
    case InitRead(count) =>
      && p.state.ReadInitFromUpstream? && w.conn.Conn? && count <= |w.conn.outbox|
      && CanRead(p.init, INIT_SIZE, Got(w.conn.outbox[..count]))
    case InitReadFails => p.state.ReadInitFromUpstream?
    case UpWrite(count) => p.state.WriteToUpstream? && w.conn.Conn? && CanWrite(p.req, Took(count))
    case UpWriteFails => p.state.WriteToUpstream?
    case UpRead(count) =>
      && p.state.ReadFromUpstream? && w.conn.Conn? && 0 < count <= |w.conn.outbox|
      && CanRead(p.rsp, REPLY_SIZE, Got(w.conn.outbox[..count]))
      && ReplyReady(ReadUpstream(p, Got(w.conn.outbox[..count])))
    case UpReadFails => p.state.ReadFromUpstream?
    case TimeOut => IsUpstreamState(p.state)
    case ServerStores(count) =>
      && w.conn.Conn? && |w.conn.inbox| >= REQUEST_SIZE
      && var x := Arrived(w.conn.inbox);
         x.r.typ == REQUEST_WRITE && ErrorFor(|w.disk|, x.r) == 0 && count <= |x.payload|
    case ServerAnswers => w.conn.Conn? && RequestArrived(w.conn.inbox)
  }

  /** The buffers are as large as proxy_prefetch_for_request takes for granted. */
  predicate PrefetchReady(p: Proxy) {
    p.state.WriteToUpstream? && p.prefetch.Prefetch? ==>
      && |p.reqHdr.handle| == 8 && |p.req.buf| >= REQUEST_SIZE
      && (CacheHit(p.prefetch, p.reqHdr) ==>
            && REPLY_SIZE + p.reqHdr.len <= |p.rsp.buf|
            && p.reqHdr.from - p.prefetch.from + p.reqHdr.len <= |p.prefetch.buffer|)
  }

  /** The same for proxy_prefetch_for_reply. */
  predicate ReplyReady(p: Proxy) {
    p.state.WriteToDownstream? && p.prefetch.Prefetch? && p.isPrefetchReq ==>
      && p.prefetchReqOrigLen <= p.reqHdr.len
      && p.reqHdr.len - p.prefetchReqOrigLen <= |p.prefetch.buffer|
      && REPLY_SIZE + p.reqHdr.len <= |p.rsp.buf|
      && p.reqHdr.len - p.prefetchReqOrigLen <= p.rsp.size
  }

  // ----- one turn of the loop, state by state -----

  /** The READ_FROM_DOWNSTREAM case of the loop. */
  function TurnReadDownstream(p: Proxy, input: Input): Proxy
    requires CanRead(p.req, REQUEST_SIZE, input) && PrefetchReady(ReadDownstream(p, input))
  {
    var q := ReadDownstream(p, input);
    if q.prefetch.Prefetch? && q.state.WriteToUpstream? then PrefetchForRequest(q) else q
  }

  /** The READ_FROM_UPSTREAM case. */
  function TurnReadUpstream(p: Proxy, input: Input): Proxy
    requires CanRead(p.rsp, REPLY_SIZE, input) && ReplyReady(ReadUpstream(p, input))
  {
    var q := ReadUpstream(p, input);
    if q.prefetch.Prefetch? && q.state.WriteToDownstream? then PrefetchForReply(q) else q
  }

  /** The request just completed, cut out of the bytes the proxy holds. */
  function JustRead(req: IoBuf): Exchange
    requires REQUEST_SIZE <= req.size <= |req.buf|
  {
    Exchange(DecodeRequest(req.buf[..REQUEST_SIZE]), req.buf[REQUEST_SIZE..req.size])
  }

  function AfterDownRead(s: Sys, data: seq<byte>): Sys
    requires Enabled(s, DownRead(data))
  {
    var q := ReadDownstream(s.p, Got(data));
    var t := TurnReadDownstream(s.p, Got(data));
    var w := s.w.(taken := s.w.taken + data);
    if q.state.WriteToUpstream? && REQUEST_SIZE <= q.req.size <= |q.req.buf|
    then Sys(t, w.(cur := JustRead(q.req), curWire := q.req.All(), queued := t.req.All()))
    else Sys(t, w)
  }

  /** The reference takes the request in hand, once. */
  function Account(w: World): World {
    if IsExchange(w.cur)
    then w.(stream := w.stream + w.curWire,
            refOut := w.refOut + ReplyBytes(w.refDisk, w.cur.r),
            refDisk := DiskAfter(w.refDisk, w.cur.r, w.cur.payload))
    else w
  }

  function AfterDownWrite(s: Sys, count: nat): Sys
    requires Enabled(s, DownWrite(count))
  {
    var p := s.p;
    var q := WriteDownstream(p, Took(count));
    var w := s.w.(given := s.w.given + p.rsp.buf[p.rsp.needle..p.rsp.needle + count]);
    Sys(q, if q.state.ReadFromDownstream? && p.helloSent then Account(w) else w)
  }

  function AfterNewSession(s: Sys): Sys
    requires Enabled(s, NewSession)
  {
    Sys(BeginSession(s.p),
        s.w.(taken := [], given := [], first := s.w.disk, stream := [], refDisk := s.w.disk, refOut := []))
  }

  /** The old connection is closed, a new one begins with the server's hello. */
  function AfterConnect(s: Sys): Sys {
    Sys(Connected(s.p), s.w.(conn := Conn([], s.w.hello)))
  }

  function AfterInitRead(s: Sys, count: nat): Sys
    requires Enabled(s, InitRead(count))
  {
    Sys(ReadInit(s.p, Got(s.w.conn.outbox[..count])), s.w.(conn := s.w.conn.(outbox := s.w.conn.outbox[count..])))
  }

  function AfterUpWrite(s: Sys, count: nat): Sys
    requires Enabled(s, UpWrite(count))
  {
    var sent := s.p.req.buf[s.p.req.needle..s.p.req.needle + count];
    Sys(WriteUpstream(s.p, Took(count)), s.w.(conn := s.w.conn.(inbox := s.w.conn.inbox + sent)))
  }

  function AfterUpRead(s: Sys, count: nat): Sys
    requires Enabled(s, UpRead(count))
  {
    Sys(TurnReadUpstream(s.p, Got(s.w.conn.outbox[..count])), s.w.(conn := s.w.conn.(outbox := s.w.conn.outbox[count..])))
  }

  /** A write that is being received may be on disk up to any byte received. */
  function AfterServerStores(s: Sys, count: nat): Sys
    requires Enabled(s, ServerStores(count))
  {
    var x := Arrived(s.w.conn.inbox);
    Sys(s.p, s.w.(disk := Splice(s.w.disk, x.r.from, x.payload[..count])))
  }

  function AfterServerAnswers(s: Sys): Sys
    requires Enabled(s, ServerAnswers)
  {
    var x := Arrived(s.w.conn.inbox);
    var n := REQUEST_SIZE + PayloadLength(x.r);
    Sys(s.p, s.w.(disk := DiskAfter(s.w.disk, x.r, x.payload),
                  conn := Conn(s.w.conn.inbox[n..], s.w.conn.outbox + ReplyBytes(s.w.disk, x.r))))
  }

  function Apply(s: Sys, a: Step): Sys
    requires Enabled(s, a)
  {
    match a
    case DownRead(data) => AfterDownRead(s, data)
    case DownReadFails => s.(p := ReadDownstream(s.p, ReadFailed))
    case DownWrite(count) => AfterDownWrite(s, count)
    case DownWriteFails => s.(p := WriteDownstream(s.p, WriteFailed))
    case NewSession => AfterNewSession(s)
    case ConnectSucceeds => AfterConnect(s)
    case ConnectFails => s.(w := s.w.(conn := NoConn))
    case InitRead(count) => AfterInitRead(s, count)
    case InitReadFails => s.(p := ReadInit(s.p, ReadFailed))
    case UpWrite(count) => AfterUpWrite(s, count)
    case UpWriteFails => s.(p := WriteUpstream(s.p, WriteFailed))
    case UpRead(count) => AfterUpRead(s, count)
    case UpReadFails => s.(p := ReadUpstream(s.p, ReadFailed))
    case TimeOut => s.(p := s.p.(state := ConnectToUpstream))
    case ServerStores(count) => AfterServerStores(s, count)
    case ServerAnswers => AfterServerAnswers(s)
  }

  predicate CanRun(s: Sys, run: seq<Step>)
    decreases |run|
  {
    run == [] || (Enabled(s, run[0]) && CanRun(Apply(s, run[0]), run[1..]))
  }

  function Exec(s: Sys, run: seq<Step>): Sys
    requires CanRun(s, run)
    decreases |run|
  {
    if run == [] then s else Exec(Apply(s, run[0]), run[1..])
  }
}
