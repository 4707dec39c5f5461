/**
 One client's connection (src/server/client.c:329-646 and 685-726): read a request, refuse it
 or carry it out on the mapped file, reply, repeat.
 */
module Sessions {
  import opened Bytes
  import opened Wire
  import opened EventStream
  import opened SparseStores
  import opened SparseWrite
  import opened NaiveDisk
  import MapServer

  // ----- throwing a payload away -----

  /** Turns of the loop in client_flush: a splice takes some of what is there, or nothing at the end. */
  predicate IsFlush(left: nat, there: nat, turns: seq<nat>)
    decreases |turns|
  {
    turns == [] ||
    (&& left > 0 && (if there == 0 then turns[0] == 0 else 1 <= turns[0] <= Min(left, there))
     && IsFlush(left - turns[0], there - turns[0], turns[1..]))
  }

  function Total(turns: seq<nat>): nat {
    if turns == [] then 0 else turns[0] + Total(turns[1..])
  }

  /** Some number of turns ends the loop. */
  ghost predicate FlushEnds(len: nat, there: nat) {
    exists turns :: IsFlush(len, there, turns) && Total(turns) == len
  }

  lemma {:induction false} FlushTakes(left: nat, there: nat, turns: seq<nat>)
    requires IsFlush(left, there, turns)
    ensures Total(turns) <= there
    decreases |turns|
  {
    if turns != [] {
      FlushTakes(left - turns[0], there - turns[0], turns[1..]);
    }
  }

  /** The loop ends exactly if the whole payload comes; otherwise it turns for ever. */
  lemma FlushEndsIff(len: nat, there: nat)
    ensures FlushEnds(len, there) <==> len <= there
  {
    if len <= there {
      var turns: seq<nat> := if len == 0 then [] else [len];
      if len > 0 {
        assert turns[1..] == [];
        assert Total(turns) == len + Total([]);
      }
      assert IsFlush(len, there, turns) && Total(turns) == len;
    } else {
      forall turns | IsFlush(len, there, turns) ensures Total(turns) != len {
        FlushTakes(len, there, turns);
      }
    }
  }

  // ----- the connection -----

  /** How one call of client_serve_request ends. */
  datatype Turn = Continue | Stop | Dead

  class Client {
    const image: Image
    const sock: Socket
    /** allocation_map_built, which the builder's thread may set between two requests. */
    var mapBuilt: bool
    var disconnect: bool

    constructor (image: Image, mapBuilt: bool)
      ensures this.image == image && this.sock == image.sock && this.mapBuilt == mapBuilt && !disconnect
    {
      this.image, this.sock, this.mapBuilt := image, image.sock, mapBuilt;
      disconnect := false;
    }

    ghost predicate Valid()
      reads this, image, image.mapped, image.alloc, image.alloc.bits, image.alloc.stream, image.alloc.stream.entries
    {
      image.Valid() && sock == image.sock && image.alloc.size < WORD
    }

    /** File and map as MapServer has them. */
    ghost function Disk(build: MapServer.Build): MapServer.Disk
      reads image.mapped, image.alloc
    {
      MapServer.Disk(image.mapped[..], image.alloc.marked, build)
    }

    /** The flag is as `build` says, and what the builder has yet to mark lies in the file. */
    ghost predicate Expects(build: MapServer.Build)
      reads this, image.alloc
    {
      && (mapBuilt <==> build.Built?)
      && (build.After? ==> forall b :: b in build.blocks ==> b * BLOCK < image.alloc.size)
    }

    /** The builder marks its blocks and sets the flag, if it is time. */
    method Tick(build: MapServer.Build) returns (now: MapServer.Build)
      requires Valid() && Expects(build)
      modifies this`mapBuilt, image`copy, image.alloc`marked, image.alloc.bits, image.alloc.stream, image.alloc.stream.entries
      ensures Valid() && Expects(now) && image.alloc.stream.entries == old(image.alloc.stream.entries)
      ensures Disk(now) == MapServer.Tick(old(Disk(build))) && now == MapServer.Ticked(build)
      ensures Followed(old(image.Now()), image.Now(), 0, 0)
    {
      now := build;
      if build.After? {
        if build.requests > 0 {
          now := MapServer.After(build.requests - 1, build.blocks);
        } else {
          image.MarkBlocks(build.blocks);
          mapBuilt, now := true, MapServer.Built;
        }
      }
    }

    /** client_flush: throw away the payload of a write that is refused. */
    method Flush(len: nat)
      requires len <= |sock.incoming|
      modifies sock`incoming
      ensures sock.incoming == old(sock.incoming)[len..]
    {
      var spliced := 0;
      while spliced < len
        invariant spliced <= len && sock.incoming == old(sock.incoming)[spliced..]
      {
        var received :| 1 <= received <= len - spliced && received <= |sock.incoming|;
        sock.incoming := sock.incoming[received..];
        spliced := spliced + received;
      }
    }

    /** client_write_reply */
    method WriteReply(r: Request, error: nat)
      requires |r.handle| == 8
      modifies sock`sent
      ensures sock.sent == old(sock.sent) + ReplyHeader(r.handle, error)
    {
      sock.WriteLoop(EncodeReply(Reply(REPLY_MAGIC, error, r.handle)));
    }

    /** client_request_needs_reply */
    method RequestNeedsReply(r: Request) returns (needed: bool)
      requires Valid() && |r.handle| == 8 && r.from < WORD && r.len < WORD
      requires MapServer.TameRequest(image.alloc.size, mapBuilt, r, sock.incoming)
      modifies this`disconnect, sock`incoming, sock`sent
      ensures needed <==> ErrorFor(image.alloc.size, r) == 0
      ensures needed <==>
                r.magic == 0x25609513 && r.from + r.len <= image.alloc.size && (r.typ == 0 || r.typ == 1 || r.typ == 3)
      ensures r.magic != 0x25609513 ==> sock.sent == old(sock.sent) + EncodeReply(Reply(0x67446698, 74, r.handle))
      ensures r.magic == 0x25609513 && r.from + r.len > image.alloc.size ==>
                sock.sent == old(sock.sent) + EncodeReply(Reply(0x67446698, 28, r.handle))
      ensures r.magic == 0x25609513 && r.from + r.len <= image.alloc.size && r.typ > 3 ==>
                sock.sent == old(sock.sent) + EncodeReply(Reply(0x67446698, 22, r.handle))
      ensures needed ==> sock.incoming == old(sock.incoming) && sock.sent == old(sock.sent) && disconnect == old(disconnect)
      ensures !needed && r.magic != REQUEST_MAGIC ==>
                && disconnect && sock.incoming == old(sock.incoming)
                && sock.sent == old(sock.sent) + ReplyHeader(r.handle, EBADMSG)
      ensures IsDisconnect(image.alloc.size, r) ==>
                disconnect && sock.incoming == old(sock.incoming) && sock.sent == old(sock.sent)
      ensures !needed && r.magic == REQUEST_MAGIC && !IsDisconnect(image.alloc.size, r) ==>
                && |old(sock.incoming)| >= PayloadLength(r) && !disconnect
                && sock.incoming == old(sock.incoming)[PayloadLength(r)..]
                && sock.sent == old(sock.sent) + ReplyHeader(r.handle, ErrorFor(image.alloc.size, r))
    {
      if r.magic != REQUEST_MAGIC {
        WriteReply(r, EBADMSG);
        disconnect := true;
        return false;
      }
      MapServer.RefusesIff(image.alloc.size, r);
      if (r.from + r.len) % WORD > image.alloc.size {
        if r.typ == REQUEST_WRITE {
          Flush(r.len);
        }
        WriteReply(r, ENOSPC);
        disconnect := false;
        return false;
      }
      if r.typ == REQUEST_READ || r.typ == REQUEST_WRITE || r.typ == REQUEST_FLUSH {
        return true;
      } else if r.typ == REQUEST_DISCONNECT {
        disconnect := true;
        return false;
      } else {
        WriteReply(r, EINVAL);
        disconnect := false;
        return false;
      }
    }

    /** client_reply_to_read */
    method ReplyToRead(r: Request)
      requires Valid() && |r.handle| == 8 && InRange(image.alloc.size, r)
      modifies sock`sent
      ensures sock.sent == old(sock.sent) + (ReplyHeader(r.handle, 0) + image.mapped[r.from..r.from + r.len])
    {
      WriteReply(r, 0);
      var data := image.mapped[r.from..r.from + r.len];
      sock.WriteLoop(data);
      Regroup(old(sock.sent), ReplyHeader(r.handle, 0), data);
    }

    /** client_reply_to_write; replying needs the whole payload stored, and announced to a mirror, first. */
    method ReplyToWrite(r: Request, ghost build: MapServer.Build) returns (ok: bool)
      requires Valid() && |r.handle| == 8 && InRange(image.alloc.size, r) && mapBuilt == build.Built? && (!mapBuilt ==> 0 < r.from + r.len)
      modifies image`copy, image.mapped, image.alloc`marked, image.alloc.bits, image.alloc.stream, image.alloc.stream.entries
      modifies sock`incoming, sock`sent
      ensures Valid() && image.alloc.stream.entries == old(image.alloc.stream.entries)
      ensures StoredOn(ok, r.from, r.len, old(Disk(build)), Disk(build), old(sock.incoming), sock.incoming)
      ensures ok && image.alloc.streamEnabled ==>
                Told(old(image.alloc.stream.log), image.alloc.stream.log, old(image.mapped[..]), image.mapped[..], r.from, r.len)
                && Followed(old(image.Now()), image.Now(), 0, 0)
      ensures sock.sent == old(sock.sent) + if ok then ReplyHeader(r.handle, 0) else []
    {
      ok := StorePayload(r.from, r.len, build);
      if ok {
        WriteReply(r, 0);
      }
    }

    /** Both paths of client_reply_to_write up to the reply; which one, the flag says at this moment. */
    method StorePayload(from: nat, len: nat, ghost build: MapServer.Build) returns (ok: bool)
      requires Valid() && from + len <= image.alloc.size && mapBuilt == build.Built? && (!mapBuilt ==> 0 < from + len)
      modifies image`copy, image.mapped, image.alloc`marked, image.alloc.bits, image.alloc.stream, image.alloc.stream.entries
      modifies sock`incoming
      ensures Valid() && image.alloc.stream.entries == old(image.alloc.stream.entries)
      ensures StoredOn(ok, from, len, old(Disk(build)), Disk(build), old(sock.incoming), sock.incoming)
      ensures ok && image.alloc.streamEnabled ==>
                Told(old(image.alloc.stream.log), image.alloc.stream.log, old(image.mapped[..]), image.mapped[..], from, len)
                && Followed(old(image.Now()), image.Now(), 0, 0)
    {
      if mapBuilt {
        ok := WriteSparsely(from, len, build);
      } else {
        ok := WriteDirect(from, len, build);
      }
    }

    /** The path of client_reply_to_write with an allocation map. */
    method WriteSparsely(from: nat, len: nat, ghost build: MapServer.Build) returns (ok: bool)
      requires Valid() && build.Built? && from + len <= image.alloc.size
      modifies image`copy, image.mapped, image.alloc`marked, image.alloc.bits, image.alloc.stream, image.alloc.stream.entries
      modifies sock`incoming
      ensures Valid() && image.alloc.stream.entries == old(image.alloc.stream.entries)
      ensures StoredOn(ok, from, len, old(Disk(build)), Disk(build), old(sock.incoming), sock.incoming)
      ensures ok && image.alloc.streamEnabled ==>
                Told(old(image.alloc.stream.log), image.alloc.stream.log, old(image.mapped[..]), image.mapped[..], from, len)
                && Followed(old(image.Now()), image.Now(), 0, 0)
    {
      ghost var stored, posted;
      ok, stored, posted := image.WriteNotZeroes(from, len);
      WroteIsStored(ok, from, len, old(image.Now()), image.Now(), stored, posted, image.alloc.streamEnabled, build);
    }

    /** The path of client_reply_to_write without an allocation map. */
    method WriteDirect(from: nat, len: nat, ghost build: MapServer.Build) returns (ok: bool)
      requires Valid() && !build.Built? && 0 < from + len <= image.alloc.size
      modifies image`copy, image.mapped, image.alloc`marked, image.alloc.bits, image.alloc.stream, image.alloc.stream.entries
      modifies sock`incoming
      ensures Valid() && image.alloc.stream.entries == old(image.alloc.stream.entries)
      ensures StoredOn(ok, from, len, old(Disk(build)), Disk(build), old(sock.incoming), sock.incoming)
      ensures ok && image.alloc.streamEnabled ==>
                Told(old(image.alloc.stream.log), image.alloc.stream.log, old(image.mapped[..]), image.mapped[..], from, len)
                && Followed(old(image.Now()), image.Now(), 0, 0)
    {
      var data;
      data, ok := sock.ReadLoop(len);
      CopyIn(image.mapped, from, data);
      if ok {
        image.Post(from, len);
        assert image.mapped[from..from + len] == data;
        OneEvent(old(image.alloc.stream.log), from, len, old(image.mapped[..]), image.mapped[..]);
      }
    }

    /** client_reply, for a request that client_request_needs_reply let through. */
    method ReplyTo(r: Request, ghost build: MapServer.Build) returns (ok: bool)
      requires Valid() && |r.handle| == 8 && ErrorFor(image.alloc.size, r) == 0 && mapBuilt == build.Built?
      requires MapServer.TameRequest(image.alloc.size, mapBuilt, r, sock.incoming)
      modifies image`copy, image.mapped, image.alloc`marked, image.alloc.bits, image.alloc.stream, image.alloc.stream.entries
      modifies sock`incoming, sock`sent
      ensures Valid() && image.alloc.stream.entries == old(image.alloc.stream.entries)
      ensures ok <==> |old(sock.incoming)| >= PayloadLength(r)
      ensures ok ==>
                && Disk(build) == MapServer.Answered(old(Disk(build)), r, old(sock.incoming)[..PayloadLength(r)])
                && sock.incoming == old(sock.incoming)[PayloadLength(r)..]
                && sock.sent == old(sock.sent) + ReplyBytes(old(image.mapped[..]), r)
      ensures ok && image.alloc.streamEnabled ==> Followed(old(image.Now()), image.Now(), 0, 0)
      ensures !ok ==>
                && sock.sent == old(sock.sent)
                && MapServer.LeftBehind(old(Disk(build)), r.from, old(sock.incoming), Disk(build))
    {
      ok := true;
      if r.typ == REQUEST_READ {
        ReplyToRead(r);
      } else if r.typ == REQUEST_WRITE {
        ok := ReplyToWrite(r, build);
      } else {
        WriteReply(r, 0);
      }
    }

    /**
     client_serve_request, on an open server and without a stop signal: either the next request
     is answered exactly as MapServer answers it, or the session ends the way it would end there.
     */
    method ServeRequest(build: MapServer.Build) returns (turn: Turn, now: MapServer.Build)
      requires Valid() && !disconnect && Expects(build) && MapServer.Tame(image.alloc.size, build, sock.incoming)
      modifies this`disconnect, this`mapBuilt
      modifies image`copy, image.mapped, image.alloc`marked, image.alloc.bits, image.alloc.stream, image.alloc.stream.entries
      modifies sock`incoming, sock`sent
      ensures Valid() && Expects(now) && image.alloc.stream.entries == old(image.alloc.stream.entries)
      ensures Served(turn, old(Disk(build)), Disk(now), old(sock.incoming), sock.incoming, old(sock.sent), sock.sent, disconnect)
      ensures Spoke(old(image.mapped[..]), old(sock.incoming), old(sock.sent), sock.sent)
      ensures turn != Dead && image.alloc.streamEnabled ==> Followed(old(image.Now()), image.Now(), 0, 0)
    {
      ghost var was, input := Disk(build), sock.incoming;
      now := build;
      var raw, ok := sock.ReadLoop(REQUEST_SIZE);
      if !ok {
        ServedSpeaks(Stop, was, Disk(now), input, sock.incoming, old(sock.sent), sock.sent, disconnect);
        return Stop, now;
      }
      var r := DecodeRequest(raw);
      assert input[..REQUEST_SIZE] == raw;
      RequestFits(raw);
      turn, now := Handle(r, build);
      DealtServed(turn, was, MapServer.Tick(was), Disk(now), r, input, sock.incoming, old(sock.sent), sock.sent, disconnect);
      ServedSpeaks(turn, was, Disk(now), input, sock.incoming, old(sock.sent), sock.sent, disconnect);
    }

    /** The builder's turn, if it is time, and then the request's. */
    method Handle(r: Request, build: MapServer.Build) returns (turn: Turn, now: MapServer.Build)
      requires Valid() && !disconnect && Expects(build) && |r.handle| == 8 && r.from < WORD && r.len < WORD
      requires MapServer.TameRequest(image.alloc.size, MapServer.Ticked(build).Built?, r, sock.incoming)
      modifies this`disconnect, this`mapBuilt
      modifies image`copy, image.mapped, image.alloc`marked, image.alloc.bits, image.alloc.stream, image.alloc.stream.entries
      modifies sock`incoming, sock`sent
      ensures Valid() && Expects(now) && image.alloc.stream.entries == old(image.alloc.stream.entries)
      ensures Dealt(turn, MapServer.Tick(old(Disk(build))), Disk(now), r, old(sock.incoming), sock.incoming,
                    old(sock.sent), sock.sent, disconnect)
      ensures turn != Dead && image.alloc.streamEnabled ==> Followed(old(image.Now()), image.Now(), 0, 0)
    {
      now := Tick(build);
      ghost var ticked := image.Now();
      turn := Deal(r, now);
      if turn != Dead && image.alloc.streamEnabled {
        FollowedOn(old(image.Now()), ticked, image.Now());
      }
    }

    /** The rest of client_serve_request, once the header has been read. */
    method Deal(r: Request, ghost build: MapServer.Build) returns (turn: Turn)
      requires Valid() && !disconnect && |r.handle| == 8 && r.from < WORD && r.len < WORD && mapBuilt == build.Built?
      requires MapServer.TameRequest(image.alloc.size, mapBuilt, r, sock.incoming)
      modifies this`disconnect
      modifies image`copy, image.mapped, image.alloc`marked, image.alloc.bits, image.alloc.stream, image.alloc.stream.entries
      modifies sock`incoming, sock`sent
      ensures Valid() && image.alloc.stream.entries == old(image.alloc.stream.entries)
      ensures Dealt(turn, old(Disk(build)), Disk(build), r, old(sock.incoming), sock.incoming, old(sock.sent), sock.sent, disconnect)
      ensures turn != Dead && image.alloc.streamEnabled ==> Followed(old(image.Now()), image.Now(), 0, 0)
    {
      var needed := RequestNeedsReply(r);
      if !needed {
        return if disconnect then Stop else Continue;
      }
      var ok := ReplyTo(r, build);
      return if ok then Continue else Dead;
    }

    /**
     client_serve: the whole connection, whatever the map has promised.  Replies, file and map are
     MapServer's; `control` is what the thread hands to server_control_arrived.
     */
    method Serve(build: MapServer.Build) returns (control: bool, now: MapServer.Build)
      requires Valid() && !disconnect && Expects(build) && MapServer.Tame(image.alloc.size, build, sock.incoming)
      modifies this`disconnect, this`mapBuilt
      modifies image`copy, image.mapped, image.alloc`marked, image.alloc.bits, image.alloc.stream, image.alloc.stream.entries
      modifies sock`incoming, sock`sent
      ensures Valid() && Expects(now)
      ensures var s := MapServer.Serve(old(Disk(build)), old(sock.incoming));
              && sock.sent == old(sock.sent) + s.out
              && (control <==> s.end.BadMagic? || s.end.Disconnected?)
              && (if s.end.CutOff? then MapServer.LeftBehind(s.disk, s.end.from, s.end.got, Disk(now)) else Disk(now) == s.disk)
              && (!s.end.CutOff? && image.alloc.streamEnabled ==> Followed(old(image.Now()), image.Now(), 0, 0))
    {
      now := build;
      ghost var whole := Resumed(sock.sent, MapServer.Serve(Disk(now), sock.incoming));
      var turn := Continue;
      while turn == Continue
        invariant Valid() && Expects(now) && image.alloc.stream.entries == old(image.alloc.stream.entries)
        invariant turn == Continue ==> !disconnect && MapServer.Tame(image.alloc.size, now, sock.incoming)
        invariant turn == Continue ==> Resumed(sock.sent, MapServer.Serve(Disk(now), sock.incoming)) == whole
        invariant turn != Dead && image.alloc.streamEnabled ==> Followed(old(image.Now()), image.Now(), 0, 0)
        invariant turn == Dead ==> whole.end.CutOff?
        invariant turn != Continue ==> Over(whole, Disk(now), sock.sent, disconnect)
        decreases turn == Continue, |sock.incoming|
      {
        ghost var was, inc, sent, seen := Disk(now), sock.incoming, sock.sent, image.Now();
        turn, now := ServeRequest(now);
        if turn != Dead && image.alloc.streamEnabled {
          FollowedOn(old(image.Now()), seen, image.Now());
        }
        ServedMeans(turn, was, Disk(now), inc, sock.incoming, sent, sock.sent, disconnect);
        StaysTame(turn, was, Disk(now), inc, sock.incoming, sent, sock.sent, disconnect);
      }
      control := disconnect;
    }
  }

  lemma RequestFits(raw: seq<byte>)
    requires |raw| == REQUEST_SIZE
    ensures DecodeRequest(raw).from < WORD && DecodeRequest(raw).len < WORD
  {
    Widths();
    RequestBytesRoundTrip(raw);
  }

  lemma StaysTame(turn: Turn, was: MapServer.Disk, now: MapServer.Disk, inc: seq<byte>, inc': seq<byte>,
                  sent: seq<byte>, sent': seq<byte>, disconnect: bool)
    requires MapServer.Tame(|was.bytes|, was.build, inc)
    requires Served(turn, was, now, inc, inc', sent, sent', disconnect)
    ensures turn == Continue ==> MapServer.Tame(|now.bytes|, now.build, inc')
  {
  }

  /** What is left of a session, with everything sent before it put in front. */
  ghost function Resumed(sent: seq<byte>, s: MapServer.Outcome): MapServer.Outcome {
    s.(out := sent + s.out)
  }

  /** The connection has ended as `s` says. */
  ghost predicate Over(s: MapServer.Outcome, now: MapServer.Disk, sent: seq<byte>, disconnect: bool) {
    && sent == s.out
    && (disconnect <==> s.end.BadMagic? || s.end.Disconnected?)
    && if s.end.CutOff? then MapServer.LeftBehind(s.disk, s.end.from, s.end.got, now) else now == s.disk
  }

  lemma ServedMeans(turn: Turn, was: MapServer.Disk, now: MapServer.Disk, inc: seq<byte>, inc': seq<byte>,
                    sent: seq<byte>, sent': seq<byte>, disconnect: bool)
    requires Served(turn, was, now, inc, inc', sent, sent', disconnect)
    ensures turn == Continue ==> |inc'| < |inc| && Resumed(sent', MapServer.Serve(now, inc')) == Resumed(sent, MapServer.Serve(was, inc))
    ensures turn != Continue ==> Over(Resumed(sent, MapServer.Serve(was, inc)), now, sent', disconnect)
  {
    if turn == Continue {
      var r := DecodeRequest(inc[..REQUEST_SIZE]);
      MapServer.ServeGoes(was, inc, r);
      Regroup(sent, ReplyBytes(was.bytes, r), MapServer.Serve(now, inc').out);
    }
  }

  /** One request, header already read, with what follows it in `inc`. */
  ghost predicate Dealt(turn: Turn, e: MapServer.Disk, now: MapServer.Disk, r: Request, inc: seq<byte>, inc': seq<byte>,
                        sent: seq<byte>, sent': seq<byte>, disconnect: bool)
    requires |r.handle| == 8
  {
    var size, n := |e.bytes|, PayloadLength(r);
    match turn
    case Continue =>
      && r.magic == REQUEST_MAGIC && !IsDisconnect(size, r) && |inc| >= n && !disconnect
      && now == MapServer.Answered(e, r, inc[..n]) && inc' == inc[n..] && sent' == sent + ReplyBytes(e.bytes, r)
    case Stop =>
      && (r.magic != REQUEST_MAGIC || IsDisconnect(size, r)) && disconnect && now == e
      && sent' == sent + if r.magic != REQUEST_MAGIC then ReplyBytes(e.bytes, r) else []
    case Dead =>
      && r.magic == REQUEST_MAGIC && !IsDisconnect(size, r) && |inc| < n && InRange(size, r) && !disconnect
      && sent' == sent && MapServer.LeftBehind(e, r.from, inc, now)
  }

  lemma DealtServed(turn: Turn, was: MapServer.Disk, e: MapServer.Disk, now: MapServer.Disk, r: Request, inc: seq<byte>, inc': seq<byte>,
                    sent: seq<byte>, sent': seq<byte>, disconnect: bool)
    requires |inc| >= REQUEST_SIZE && r == DecodeRequest(inc[..REQUEST_SIZE]) && e == MapServer.Tick(was)
    requires Dealt(turn, e, now, r, inc[REQUEST_SIZE..], inc', sent, sent', disconnect)
    ensures Served(turn, was, now, inc, inc', sent, sent', disconnect)
  {
  }

  ghost predicate Served(turn: Turn, was: MapServer.Disk, now: MapServer.Disk, inc: seq<byte>, inc': seq<byte>,
                         sent: seq<byte>, sent': seq<byte>, disconnect: bool)
  {
    var s := MapServer.Serve(was, inc);
    match turn
    case Continue =>
      && Goes(|was.bytes|, inc) && !disconnect
      && var r := DecodeRequest(inc[..REQUEST_SIZE]);
         var n := PayloadLength(r);
         && now == MapServer.Answered(MapServer.Tick(was), r, inc[REQUEST_SIZE..][..n]) && inc' == inc[REQUEST_SIZE..][n..]
         && sent' == sent + ReplyBytes(was.bytes, r)
    case Stop =>
      && !Goes(|was.bytes|, inc) && now == s.disk && sent' == sent + s.out
      && (s.end.PeerStopped? || s.end.BadMagic? || s.end.Disconnected?)
      && (disconnect <==> !s.end.PeerStopped?)
    case Dead =>
      && !Goes(|was.bytes|, inc) && s.out == [] && sent' == sent && !disconnect
      && s.end.CutOff? && MapServer.LeftBehind(s.disk, s.end.from, s.end.got, now)
  }

  /** What goes to the peer for one request, in plain numbers. */
  ghost predicate Spoke(bytes: seq<byte>, inc: seq<byte>, sent: seq<byte>, sent': seq<byte>) {
    if |inc| < 28 then sent' == sent
    else
      var r := DecodeRequest(inc[..28]);
      var inRange, cutOff := r.from + r.len <= |bytes|, r.typ == 1 && |inc| - 28 < r.len;
      if r.magic == 0x25609513 && ((r.typ == 2 && inRange) || cutOff) then sent' == sent
      else exists reply :: NbdReply(bytes, r, reply) && sent' == sent + reply
  }

  lemma ServedSpeaks(turn: Turn, was: MapServer.Disk, now: MapServer.Disk, inc: seq<byte>, inc': seq<byte>,
                     sent: seq<byte>, sent': seq<byte>, disconnect: bool)
    requires Served(turn, was, now, inc, inc', sent, sent', disconnect)
    ensures Spoke(was.bytes, inc, sent, sent')
  {
    NothingAfter(sent);
    if |inc| >= REQUEST_SIZE {
      var r := DecodeRequest(inc[..REQUEST_SIZE]);
      var reply := ReplyBytes(was.bytes, r);
      Answers(was.bytes, r);
      if turn == Stop && r.magic != REQUEST_MAGIC {
        assert MapServer.Serve(was, inc).out == reply;
      }
      if turn == Continue || r.magic != REQUEST_MAGIC {
        assert NbdReply(was.bytes, r, reply) && sent' == sent + reply;
      } else {
        assert sent' == sent;
      }
    }
  }

  /** Storing `len` bytes of payload: all of them, or what a peer that stopped early left. */
  ghost predicate StoredOn(ok: bool, from: nat, len: nat, was: MapServer.Disk, now: MapServer.Disk, inc: seq<byte>, inc': seq<byte>) {
    && from + len <= |was.bytes|
    && (ok <==> |inc| >= len)
    && if ok then now == MapServer.Stored(was, from, inc[..len]) && inc' == inc[len..]
       else MapServer.LeftBehind(was, from, inc, now) && inc' == []
  }

  lemma WroteIsStored(ok: bool, from: nat, len: nat, a: Snap, b: Snap, stored: nat, posted: nat, streaming: bool, build: MapServer.Build)
    requires build.Built? && from + len <= |a.bytes| && Wrote(a, b, from, stored, posted, streaming) && (ok <==> |a.inc| >= len)
    requires if ok then posted == stored == len && b.inc == a.inc[len..] else stored < len && b.inc == []
    ensures StoredOn(ok, from, len, MapServer.Disk(a.bytes, a.marked, build), MapServer.Disk(b.bytes, b.marked, build), a.inc, b.inc)
    ensures ok && streaming ==> Told(a.log, b.log, a.bytes, b.bytes, from, len) && Followed(a, b, 0, 0)
  {
    var d, e := MapServer.Disk(a.bytes, a.marked, build), MapServer.Disk(b.bytes, b.marked, build);
    var x := SparseStore(Held(a), from, a.inc[..posted]);
    if ok {
      assert a.inc[len..len] == [];
      assert Splice(x.bytes, from + len, []) == x.bytes;
    } else {
      assert MapServer.CutSparsely(d, from, a.inc, posted, stored, e);
    }
  }

  /** Every byte of the write that differs is named by an event posted since. */
  ghost predicate Told(log: seq<Entry>, log': seq<Entry>, was: seq<byte>, now: seq<byte>, from: nat, len: nat) {
    |was| == |now| && from + len <= |was| && Announced(log, log', was, now, from, from + len)
  }

  lemma OneEvent(log: seq<Entry>, from: nat, len: nat, was: seq<byte>, now: seq<byte>)
    requires |was| == |now| && from + len <= |was|
    ensures Told(log, log + [Entry(Set, from, len)], was, now, from, len)
  {
    var log' := log + [Entry(Set, from, len)];
    forall i | from <= i < from + len && was[i] != now[i] ensures exists j :: |log| <= j < |log'| && Names(log'[j], i) {
      assert Names(log'[|log|], i);
    }
  }
}
