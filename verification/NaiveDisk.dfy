/**
 The simplest NBD server there is: a byte array that answers one request at a time.  The
 session of src/server/client.c and the proxy of src/proxy/proxy.c are both measured against it.
 */
module NaiveDisk {
  import opened Bytes
  import opened Wire

  const EINVAL: nat := 22
  const ENOSPC: nat := 28
  const EBADMSG: nat := 74

  function ReplyHeader(handle: seq<byte>, error: nat): (s: seq<byte>)
    requires |handle| == 8
    ensures |s| == REPLY_SIZE
  {
    EncodeReply(Reply(REPLY_MAGIC, error, handle))
  }

  predicate InRange(size: nat, r: Request) {
    r.from + r.len <= size
  }

  /** The payload that follows a request on the wire. */
  function PayloadLength(r: Request): nat {
    if r.typ == REQUEST_WRITE then r.len else 0
  }

  /** The error code the server answers with, 0 for success. */
  function ErrorFor(size: nat, r: Request): nat {
    if r.magic != REQUEST_MAGIC then EBADMSG
    else if !InRange(size, r) then ENOSPC
    else if r.typ == REQUEST_READ || r.typ == REQUEST_WRITE || r.typ == REQUEST_FLUSH then 0
    else EINVAL
  }

  /** The disk after a request. */
  function DiskAfter(disk: seq<byte>, r: Request, payload: seq<byte>): (d: seq<byte>)
    requires |payload| == PayloadLength(r)
    ensures |d| == |disk|
  {
    if ErrorFor(|disk|, r) == 0 && r.typ == REQUEST_WRITE then Splice(disk, r.from, payload) else disk
  }

  /** The whole reply to a request other than DISCONNECT. */
  function ReplyBytes(disk: seq<byte>, r: Request): (s: seq<byte>)
    requires |r.handle| == 8
    ensures |s| >= REPLY_SIZE
  {
    var error := ErrorFor(|disk|, r);
    ReplyHeader(r.handle, error) +
    if error == 0 && r.typ == REQUEST_READ then disk[r.from..r.from + r.len] else []
  }

  // ----- in plain numbers -----

  /** What a server answers to a request other than a DISCONNECT it obeys. */
  ghost predicate NbdReply(disk: seq<byte>, r: Request, reply: seq<byte>)
    requires |r.handle| == 8
  {
    var code :=
      if r.magic != 0x25609513 then 74
      else if r.from + r.len > |disk| then 28
      else if r.typ == 0 || r.typ == 1 || r.typ == 3 then 0
      else 22;
    reply == [0x67, 0x44, 0x66, 0x98, 0, 0, 0, code] + r.handle
             + if code == 0 && r.typ == 0 then disk[r.from..r.from + r.len] else []
  }

  lemma Answers(disk: seq<byte>, r: Request)
    requires |r.handle| == 8
    ensures NbdReply(disk, r, ReplyBytes(disk, r))
    ensures r.magic != 0x25609513 ==> ReplyBytes(disk, r) == EncodeReply(Reply(0x67446698, 74, r.handle))
    ensures r.magic == 0x25609513 && r.from + r.len > |disk| ==>
              ReplyBytes(disk, r) == EncodeReply(Reply(0x67446698, 28, r.handle))
    ensures r.magic == 0x25609513 && r.from + r.len <= |disk| ==>
              && (r.typ == 0 ==> ReplyBytes(disk, r) == EncodeReply(Reply(0x67446698, 0, r.handle)) + disk[r.from..r.from + r.len])
              && (r.typ == 1 || r.typ == 3 ==> ReplyBytes(disk, r) == EncodeReply(Reply(0x67446698, 0, r.handle)))
              && (r.typ > 3 ==> ReplyBytes(disk, r) == EncodeReply(Reply(0x67446698, 22, r.handle)))
  {
    ReplyFields(74, r.handle);
    ReplyFields(28, r.handle);
    ReplyFields(22, r.handle);
    ReplyFields(0, r.handle);
    NothingAfter(ReplyBytes(disk, r));
  }

  lemma NothingAfter(s: seq<byte>)
    ensures s + [] == s
  {
  }

  /** The disk changes exactly under a WRITE with the right magic and in range. */
  lemma WritesIff(disk: seq<byte>, r: Request, payload: seq<byte>)
    requires |payload| == (if r.typ == 1 then r.len else 0)
    ensures DiskAfter(disk, r, payload) ==
            if r.magic == 0x25609513 && r.typ == 1 && r.from + r.len <= |disk| then Splice(disk, r.from, payload) else disk
  {
  }

  // ----- a whole connection -----

  datatype End =
    | PeerStopped                                   // no complete request header came
    | BadMagic                                      // answered, then the connection is dropped
    | Disconnected                                  // an in-range DISCONNECT, not answered
    | CutOff(from: nat, got: seq<byte>)             // an in-range WRITE whose payload broke off
    | Stuck                                         // an out-of-range WRITE whose payload broke off: no way on

  datatype Session = Session(disk: seq<byte>, out: seq<byte>, rest: seq<byte>, end: End)

  predicate IsDisconnect(size: nat, r: Request) {
    r.magic == REQUEST_MAGIC && InRange(size, r) && r.typ == REQUEST_DISCONNECT
  }

  /** Serving everything a peer sends: answer each request in turn until one ends the session. */
  function Run(disk: seq<byte>, input: seq<byte>): (s: Session)
    decreases |input|
  {
    if |input| < REQUEST_SIZE then Session(disk, [], [], PeerStopped)
    else
      var r := DecodeRequest(input[..REQUEST_SIZE]);
      var tail := input[REQUEST_SIZE..];
      if r.magic != REQUEST_MAGIC then Session(disk, ReplyBytes(disk, r), tail, BadMagic)
      else if IsDisconnect(|disk|, r) then Session(disk, [], tail, Disconnected)
      else if |tail| < PayloadLength(r) then
        Session(disk, [], [], if InRange(|disk|, r) then CutOff(r.from, tail) else Stuck)
      else
        var payload := tail[..PayloadLength(r)];
        var next := Run(DiskAfter(disk, r, payload), tail[PayloadLength(r)..]);
        next.(out := ReplyBytes(disk, r) + next.out)
  }

  /** The next request is complete and does not end the session. */
  predicate Goes(size: nat, input: seq<byte>) {
    && |input| >= REQUEST_SIZE
    && var r := DecodeRequest(input[..REQUEST_SIZE]);
       && r.magic == REQUEST_MAGIC && !IsDisconnect(size, r)
       && |input| >= REQUEST_SIZE + PayloadLength(r)
  }

  /** One answered request, taken off the front of a session. */
  lemma RunGoes(disk: seq<byte>, input: seq<byte>, r: Request)
    requires Goes(|disk|, input) && r == DecodeRequest(input[..REQUEST_SIZE])
    ensures var tail := input[REQUEST_SIZE..];
            var n := PayloadLength(r);
            var next := Run(DiskAfter(disk, r, tail[..n]), tail[n..]);
            Run(disk, input) == next.(out := ReplyBytes(disk, r) + next.out)
  {
  }

  /** How a connection goes from its next request on, in plain numbers. */
  ghost predicate NbdTurn(disk: seq<byte>, input: seq<byte>, s: Session) {
    if |input| < 28 then s == Session(disk, [], [], PeerStopped)
    else
      var r, tail := DecodeRequest(input[..28]), input[28..];
      var n := if r.typ == 1 then r.len else 0;
      if r.magic != 0x25609513 then
        s.disk == disk && NbdReply(disk, r, s.out) && s.rest == tail && s.end == BadMagic
      else if r.typ == 2 && r.from + r.len <= |disk| then s == Session(disk, [], tail, Disconnected)
      else if |tail| < n then
        s == Session(disk, [], [], if r.from + r.len <= |disk| then CutOff(r.from, tail) else Stuck)
      else
        var next := Run(if r.typ == 1 && r.from + r.len <= |disk| then Splice(disk, r.from, tail[..n]) else disk, tail[n..]);
        exists reply :: NbdReply(disk, r, reply) && s == next.(out := reply + next.out)
  }

  lemma RunTurns(disk: seq<byte>, input: seq<byte>)
    ensures NbdTurn(disk, input, Run(disk, input))
  {
    if |input| >= REQUEST_SIZE {
      var r, tail := DecodeRequest(input[..REQUEST_SIZE]), input[REQUEST_SIZE..];
      Answers(disk, r);
      if Goes(|disk|, input) {
        WritesIff(disk, r, tail[..PayloadLength(r)]);
        RunGoes(disk, input, r);
      }
    }
  }
}
