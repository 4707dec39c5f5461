/**
 `struct proxier` and the functions that update it in place, each proved to do what ProxyCode
 says; and the loop of proxy_session over them.
 */
module Proxiers {
  import opened Bytes
  import opened Wire
  import opened ProxyCode
  import opened ProxySystem
  import opened ProxyRefinement

  /** `struct iobuf` */
  class IoBuffer {
    const buf: array<byte>
    var size: nat
    var needle: nat

    constructor (capacity: nat)
      ensures fresh(buf) && buf.Length == capacity && size == needle == 0
    {
      buf := new byte[capacity](_ => 0);
      size, needle := 0, 0;
    }

    function View(): IoBuf
      reads this, buf
    {
      IoBuf(buf[..], size, needle)
    }

    /** iobuf_read */
    method Read(input: Input, defaultSize: nat)
      requires CanRead(View(), defaultSize, input)
      modifies this, buf
      ensures View() == IobufRead(old(View()), defaultSize, input)
    {
      if needle == 0 {
        size := defaultSize;
      }
      if input.Got? {
        CopyIn(buf, needle, input.data);
        needle := needle + |input.data|;
      }
    }

    /** iobuf_write */
    method Write(output: Output)
      requires CanWrite(View(), output)
      modifies this`needle
      ensures View() == IobufWrite(old(View()), output)
    {
      if output.Took? {
        needle := needle + output.count;
      }
    }
  }

  /** `struct prefetch` */
  class Cache {
    const buffer: array<byte>
    var isFull: bool
    var from: nat
    var len: nat

    /** prefetch_create */
    constructor (size: nat)
      ensures fresh(buffer) && buffer.Length == size && !isFull && from == len == 0
    {
      buffer := new byte[size](_ => 0);
      isFull, from, len := false, 0, 0;
    }

    function View(): Prefetch
      reads this, buffer
    {
      Prefetch(isFull, from, len, buffer.Length, buffer[..])
    }
  }

  class Proxier {
    var state: ProxyState
    const init: IoBuffer
    const req: IoBuffer
    const rsp: IoBuffer
    var reqHdr: Request
    var upstreamSize: nat
    var upstreamFlags: nat
    var helloSent: bool
    var reqCount: nat
    var isPrefetchReq: bool
    var prefetchReqOrigLen: nat
    const prefetch: Cache?

    /** proxy_create, with a cache of `cacheBytes` if there is to be one. */
    constructor (cached: bool, cacheBytes: nat)
      ensures Valid() && state.Exit? && !isPrefetchReq && !helloSent
      ensures req.buf.Length == REQ_CAPACITY && rsp.buf.Length == RSP_CAPACITY && init.buf.Length == INIT_SIZE
      ensures prefetch == null <==> !cached
      ensures prefetch != null ==> !prefetch.isFull && prefetch.buffer.Length == cacheBytes
    {
      state := Exit;
      init := new IoBuffer(INIT_SIZE);
      req := new IoBuffer(REQ_CAPACITY);
      rsp := new IoBuffer(RSP_CAPACITY);
      reqHdr := Request(0, 0, 0, [], 0, 0);
      upstreamSize, upstreamFlags, helloSent, reqCount := 0, 0, false, 0;
      isPrefetchReq, prefetchReqOrigLen := false, 0;
      if cached {
        prefetch := new Cache(cacheBytes);
      } else {
        prefetch := null;
      }
    }

    ghost predicate Valid() {
      && init != req && init != rsp && req != rsp
      && init.buf != req.buf && init.buf != rsp.buf && req.buf != rsp.buf
      && (prefetch != null ==>
            prefetch.buffer != init.buf && prefetch.buffer != req.buf && prefetch.buffer != rsp.buf)
    }

    ghost function Parts(): set<object> {
      {this, init, init.buf, req, req.buf, rsp, rsp.buf} + if prefetch == null then {} else {prefetch, prefetch.buffer}
    }

    function CacheView(): Prefetch
      reads Parts()
    {
      if prefetch == null then NoPrefetch else prefetch.View()
    }

    function View(): Proxy
      reads Parts()
    {
      Proxy(state, init.View(), req.View(), rsp.View(), reqHdr, upstreamSize, upstreamFlags,
            helloSent, reqCount, isPrefetchReq, prefetchReqOrigLen, CacheView())
    }

    /** prefetch_set_is_empty */
    method SetEmpty()
      requires Valid()
      modifies if prefetch == null then {} else {prefetch}
      ensures View() == old(View()).(prefetch := SetFull(old(CacheView()), false))
    {
      if prefetch != null {
        prefetch.isFull := false;
      }
    }

    /** The header of a request is complete (456-483). */
    method ReadHeader() returns (ends: bool)
      requires Valid() && req.buf.Length >= REQUEST_SIZE
      modifies this`reqHdr, req`size
      ensures reqHdr == DecodeRequest(req.buf[..REQUEST_SIZE]) && ends == EndsSession(reqHdr)
      ensures req.size == old(req.size) + if !ends && reqHdr.typ == REQUEST_WRITE then reqHdr.len else 0
    {
      reqHdr := DecodeRequest(req.buf[..REQUEST_SIZE]);
      if reqHdr.typ == REQUEST_DISCONNECT {
        return true;
      }
      if reqHdr.typ == REQUEST_READ && reqHdr.len > NBD_MAX_SIZE {
        return true;
      }
      if reqHdr.typ == REQUEST_WRITE {
        if reqHdr.len > NBD_MAX_SIZE {
          return true;
        }
        req.size := req.size + reqHdr.len;
      }
      return false;
    }

    /** proxy_read_from_downstream */
    method ReadDown(input: Input)
      requires Valid() && CanRead(req.View(), REQUEST_SIZE, input) && req.buf.Length >= REQUEST_SIZE
      modifies this, req, req.buf
      ensures View() == ReadDownstream(old(View()), input)
    {
      req.Read(input, REQUEST_SIZE);
      var ends := input.ReadFailed?;
      if !ends && req.needle == REQUEST_SIZE {
        ends := ReadHeader();
      }
      FinishReading(ends);
    }

    /** After the bytes and perhaps the header: the session ends, the request is whole, or more is to come. */
    method FinishReading(ends: bool)
      requires Valid()
      modifies this`state, req`needle
      ensures var whole := !ends && old(req.needle) == req.size;
              && state == (if ends then Exit else if whole then WriteToUpstream else old(state))
              && req.needle == if whole then 0 else old(req.needle)
    {
      if ends {
        state := Exit;
      } else if req.needle == req.size {
        req.needle := 0;
        state := WriteToUpstream;
      }
    }

    /** The reply to a cache hit (337-357). */
    method AnswerFromCache()
      requires Valid() && prefetch != null && PrefetchReady(View()) && state.WriteToUpstream?
      requires CacheHit(prefetch.View(), reqHdr)
      modifies this, rsp, rsp.buf
      ensures View() == PrefetchForRequest(old(View()))
    {
      var at := reqHdr.from - prefetch.from;
      CopyIn(rsp.buf, 0, EncodeReply(Reply(REPLY_MAGIC, 0, reqHdr.handle)));
      CopyIn(rsp.buf, REPLY_SIZE, prefetch.buffer[at..at + reqHdr.len]);
      rsp.size := REPLY_SIZE + reqHdr.len;
      rsp.needle := 0;
      state := WriteToDownstream;
    }

    /** proxy_prefetch_for_request */
    method ForRequest()
      requires Valid() && prefetch != null && PrefetchReady(View()) && state.WriteToUpstream?
      modifies Parts()
      ensures View() == PrefetchForRequest(old(View()))
    {
      if reqHdr.typ == REQUEST_READ {
        if prefetch.isFull && Contains(prefetch.View(), reqHdr.from, reqHdr.len) {
          AnswerFromCache();
          return;
        }
      } else {
        SetEmpty();
      }
      var end := PrefetchEnd(reqHdr);
      if reqHdr.len <= prefetch.buffer.Length && reqHdr.typ == REQUEST_READ && reqHdr.from < end <= upstreamSize {
        isPrefetchReq := true;
        prefetchReqOrigLen := reqHdr.len;
        reqHdr := reqHdr.(len := reqHdr.len * 2 % 0x1_0000_0000);
        CopyIn(req.buf, 0, EncodeRequest(reqHdr));
      }
    }

    /** proxy_prefetch_for_reply */
    method ForReply()
      requires Valid() && prefetch != null && state.WriteToDownstream? && ReplyReady(View())
      modifies Parts()
      ensures View() == PrefetchForReply(old(View()))
    {
      if isPrefetchReq {
        var n := reqHdr.len - prefetchReqOrigLen;
        CopyIn(prefetch.buffer, 0, rsp.buf[REPLY_SIZE + prefetchReqOrigLen..REPLY_SIZE + prefetchReqOrigLen + n]);
        prefetch.from := reqHdr.from + prefetchReqOrigLen;
        prefetch.len := n;
        reqHdr := reqHdr.(len := prefetchReqOrigLen);
        rsp.size := rsp.size - n;
        prefetch.isFull := true;
        isPrefetchReq := false;
      }
    }

    /** proxy_continue_connecting_to_upstream, connected. */
    method FinishConnecting()
      requires Valid()
      modifies Parts()
      ensures View() == Connected(old(View()))
    {
      SetEmpty();
      init.needle, init.size := 0, 0;
      rsp.needle, rsp.size := 0, 0;
      req.needle := 0;
      state := ReadInitFromUpstream;
    }

    /** proxy_read_init_from_upstream */
    method ReadInitUp(input: Input)
      requires Valid() && CanRead(init.View(), INIT_SIZE, input) && init.buf.Length == INIT_SIZE
      modifies this, init, init.buf
      ensures View() == ReadInit(old(View()), input)
    {
      init.Read(input, INIT_SIZE);
      if input.ReadFailed? {
        state := ConnectToUpstream;
        return;
      }
      if init.needle == init.size {
        var (ok, size, flags) := CheckHello(init.buf[..]);
        if !ok {
          state := ConnectToUpstream;
          return;
        }
        upstreamSize, upstreamFlags := size, flags;
        init.needle := 0;
        state := WriteToUpstream;
      }
    }

    /** proxy_write_to_upstream */
    method WriteUp(output: Output)
      requires Valid() && CanWrite(req.View(), output)
      modifies this, req
      ensures View() == WriteUpstream(old(View()), output)
    {
      req.Write(output);
      if output.WriteFailed? {
        state := ConnectToUpstream;
      } else if req.needle == req.size {
        req.needle := 0;
        state := ReadFromUpstream;
      }
    }

    /** proxy_read_from_upstream */
    method ReadUp(input: Input)
      requires Valid() && CanRead(rsp.View(), REPLY_SIZE, input) && rsp.buf.Length >= REPLY_SIZE
      modifies this, rsp, rsp.buf
      ensures View() == ReadUpstream(old(View()), input)
    {
      rsp.Read(input, REPLY_SIZE);
      if input.ReadFailed? {
        state := ConnectToUpstream;
        return;
      }
      if rsp.needle == REPLY_SIZE {
        if DecodeReply(rsp.buf[..REPLY_SIZE]).magic != REPLY_MAGIC {
          state := ConnectToUpstream;
          return;
        }
        if reqHdr.typ == REQUEST_READ {
          rsp.size := rsp.size + reqHdr.len;
        }
      }
      if rsp.size == rsp.needle {
        rsp.needle := 0;
        state := WriteToDownstream;
      }
    }

    /** proxy_write_to_downstream */
    method WriteDown(output: Output)
      requires Valid() && CanWrite(rsp.View(), output)
      modifies this, rsp, req
      ensures View() == WriteDownstream(old(View()), output)
    {
      rsp.Write(output);
      if output.WriteFailed? {
        state := Exit;
        return;
      }
      if rsp.needle == rsp.size {
        if !helloSent {
          helloSent := true;
        } else {
          reqCount := reqCount + 1;
        }
        req.size, req.needle := 0, 0;
        rsp.size, rsp.needle := 0, 0;
        state := ReadFromDownstream;
      }
    }

    /** The top of proxy_session. */
    method Begin()
      requires Valid() && rsp.buf.Length >= INIT_SIZE
      modifies this, rsp, rsp.buf
      ensures View() == BeginSession(old(View()))
    {
      CopyIn(rsp.buf, 0, EncodeHello(upstreamSize, upstreamFlags));
      rsp.size, rsp.needle := INIT_SIZE, 0;
      helloSent, reqCount := false, 0;
      state := WriteToDownstream;
    }

    /** The buffers have the sizes proxy_create gave them. */
    ghost predicate Sized() {
      Valid() && init.buf.Length == INIT_SIZE && req.buf.Length == REQ_CAPACITY && rsp.buf.Length == RSP_CAPACITY
    }

    /** The READ_FROM_DOWNSTREAM case of the loop. */
    method TurnDown(input: Input)
      requires Sized() && CanRead(req.View(), REQUEST_SIZE, input) && PrefetchReady(ReadDownstream(View(), input))
      modifies Parts()
      ensures View() == TurnReadDownstream(old(View()), input)
    {
      ReadDown(input);
      if prefetch != null && state.WriteToUpstream? {
        ForRequest();
      }
    }

    /** The READ_FROM_UPSTREAM case of the loop. */
    method TurnUp(input: Input)
      requires Sized() && CanRead(rsp.View(), REPLY_SIZE, input) && ReplyReady(ReadUpstream(View(), input))
      modifies Parts()
      ensures View() == TurnReadUpstream(old(View()), input)
    {
      ReadUp(input);
      if prefetch != null && state.WriteToDownstream? {
        ForReply();
      }
    }

    /** One turn of the loop in proxy_session, as the world `w` answers its system calls. */
    method Turn(w: World, a: Step)
      requires Sized() && Enabled(Sys(View(), w), a)
      modifies Parts()
      ensures View() == Apply(Sys(old(View()), w), a).p
    {
      match a {
        case DownRead(data) => TurnDown(Got(data));
        case DownReadFails => ReadDown(ReadFailed);
        case DownWrite(count) => WriteDown(Took(count));
        case DownWriteFails => WriteDown(WriteFailed);
        case NewSession => Begin();
        case ConnectSucceeds => FinishConnecting();
        case InitRead(count) => ReadInitUp(Got(w.conn.outbox[..count]));
        case InitReadFails => ReadInitUp(ReadFailed);
        case UpWrite(count) => WriteUp(Took(count));
        case UpWriteFails => WriteUp(WriteFailed);
        case UpRead(count) => TurnUp(Got(w.conn.outbox[..count]));
        case UpReadFails => ReadUp(ReadFailed);
        case TimeOut => state := ConnectToUpstream;
        case _ =>
      }
    }

    /** A turn, and what it does to the world. */
    method TurnInWorld(world: World, a: Step) returns (w: World)
      requires Sized() && Enabled(Sys(View(), world), a)
      modifies Parts()
      ensures Sys(View(), w) == Apply(Sys(old(View()), world), a)
    {
      w := Apply(Sys(View(), world), a).w;
      Turn(world, a);
    }

    method NextTurn(ghost s0: Sys, ghost done: seq<Step>, rest: seq<Step>, world: World) returns (w: World)
      requires Sized() && rest != [] && Halfway(s0, done, rest, Sys(View(), world))
      modifies Parts()
      ensures Halfway(s0, done + [rest[0]], rest[1..], Sys(View(), w))
    {
      HalfwayStep(s0, done, rest, Sys(View(), world));
      w := TurnInWorld(world, rest[0]);
    }

    /**
     proxy_session: serve one client until the session ends.  The proxy's fields after `n` steps are
     those of the step system; so, begun in a state the theorems are about, the client has been
     given what one reliable disk would have given it.
     */
    method Session(world: World, run: seq<Step>) returns (w: World, n: nat)
      requires Sized() && run != [] && run[0] == NewSession && CanRun(Sys(View(), world), run)
      modifies Parts()
      ensures 0 < n <= |run| && (n < |run| ==> state.Exit?)
      ensures Halfway(Sys(old(View()), world), run[..n], run[n..], Sys(View(), w))
      ensures Full(Sys(old(View()), world)) ==> Refines(Sys(View(), w))
    {
      n, w := Turns(world, run);
      if Full(Sys(old(View()), world)) {
        HalfwayRefines(Sys(old(View()), world), run[..n], run[n..], Sys(View(), w));
      }
    }

    /** The loop of proxy_session. */
    method Turns(world: World, run: seq<Step>) returns (n: nat, w: World)
      requires Sized() && run != [] && run[0] == NewSession && CanRun(Sys(View(), world), run)
      modifies Parts()
      ensures 0 < n <= |run| && (n < |run| ==> state.Exit?)
      ensures Halfway(Sys(old(View()), world), run[..n], run[n..], Sys(View(), w))
    {
      ghost var s0 := Sys(View(), world);
      w := NextTurn(s0, [], run, world);
      n := 1;
      assert [] + [run[0]] == run[..1];
      while n < |run| && !state.Exit?
        invariant 0 < n <= |run|
        invariant Halfway(s0, run[..n], run[n..], Sys(View(), w))
      {
        w := NextTurn(s0, run[..n], run[n..], w);
        assert run[..n] + [run[n]] == run[..n + 1];
        n := n + 1;
      }
    }
  }

  /** The run leads from `s0` to `s` by `done`, and can go on with `rest`. */
  ghost predicate Halfway(s0: Sys, done: seq<Step>, rest: seq<Step>, s: Sys) {
    CanRun(s0, done) && Exec(s0, done) == s && CanRun(s, rest)
  }

  lemma HalfwayStep(s0: Sys, done: seq<Step>, rest: seq<Step>, s: Sys)
    requires Halfway(s0, done, rest, s) && rest != []
    ensures Enabled(s, rest[0]) && Halfway(s0, done + [rest[0]], rest[1..], Apply(s, rest[0]))
  {
    ExecSnoc(s0, done, rest[0]);
  }

  lemma HalfwayRefines(s0: Sys, done: seq<Step>, rest: seq<Step>, s: Sys)
    requires Full(s0) && Halfway(s0, done, rest, s)
    ensures Refines(s)
  {
    RunKeeps(s0, done);
    FullRefines(s);
  }

  lemma Cons(s: Sys, a: Step, rest: seq<Step>)
    requires Enabled(s, a) && CanRun(Apply(s, a), rest)
    ensures CanRun(s, [a] + rest) && Exec(s, [a] + rest) == Exec(Apply(s, a), rest)
  {
    assert ([a] + rest)[1..] == rest;
  }

  lemma {:induction false} ExecSnoc(s: Sys, run: seq<Step>, a: Step)
    requires CanRun(s, run) && Enabled(Exec(s, run), a)
    ensures CanRun(s, run + [a]) && Exec(s, run + [a]) == Apply(Exec(s, run), a)
    decreases |run|
  {
    if run == [] {
      Cons(s, a, []);
      assert [a] + [] == [] + [a];
    } else {
      var rest := run[1..] + [a];
      ExecSnoc(Apply(s, run[0]), run[1..], a);
      Cons(s, run[0], rest);
      assert [run[0]] + rest == run + [a];
    }
  }
}
