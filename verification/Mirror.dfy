/**
 The mirror's own bookkeeping as src/server/mirror.c writes it: mirror_setup_next_xfer with its
 dequeue loop over the real ring, and the proof that, left undisturbed, it is a run of the
 atomic steps of MigrationSteps.
 */
module Mirror {
  import opened Bytes
  import opened EventStream
  import opened Schedule
  import opened Wire
  import opened MigrationSteps
  import opened NaiveDisk

  datatype Drained = Drained(clear: bool, last: Entry, ring: seq<Entry>)

  /** The dequeue loop of mirror_setup_next_xfer, with nobody enqueueing meanwhile. */
  function DrainLoop(offset: nat, size: nat, clear: bool, last: Entry, ring: seq<Entry>): (d: Drained)
    ensures Draining(offset, size, d.clear, d.last) ==> d.ring == []
    ensures |d.ring| <= |ring|
    decreases |ring|
  {
    if Draining(offset, size, clear, last) && ring != []
    then DrainLoop(offset, size, ClearAfterDequeue(clear, |ring|), ring[0], ring[1..])
    else Drained(clear, last, ring)
  }

  /** The same loop from the top of the function. */
  function Drain(offset: nat, size: nat, clear: bool, ring: seq<Entry>): Drained {
    DrainLoop(offset, size, ClearAtStart(offset, size, clear, |ring|), NO_ENTRY, ring)
  }

  /** Changes are taken before the scan goes on. */
  predicate TakesChanges(offset: nat, size: nat, clear: bool) {
    offset == size || clear
  }

  /**
   What the loop takes: entries from the front up to the first change, none past it; during the scan
   only as long as the ring was found at least a quarter full; and where it stops.
   */
  ghost predicate Takes(offset: nat, size: nat, clear: bool, last: Entry, ring: seq<Entry>, d: Drained, k: nat) {
    && k <= |ring| && d.ring == ring[k..] && d.last == (if k == 0 then last else ring[k - 1])
    && PassesOver(offset == size, ring, k)
    && StopsAfter(offset == size, TakesChanges(offset, size, clear), ring, k)
    && (d.clear <==> clear && (k == 0 || |ring| - (k - 1) >= 10922))
  }

  ghost predicate PassesOver(scanned: bool, ring: seq<Entry>, k: nat)
    requires k <= |ring|
  {
    forall i :: 0 <= i < k - 1 ==> ring[i].event != Set && (scanned || |ring| - i >= 10922)
  }

  ghost predicate StopsAfter(scanned: bool, takes: bool, ring: seq<Entry>, k: nat)
    requires k <= |ring|
  {
    if k == 0 then ring == [] || !takes
    else takes && (k == |ring| || ring[k - 1].event == Set || (!scanned && |ring| - (k - 1) < 10922))
  }

  lemma {:induction false} DrainLoopSkips(offset: nat, size: nat, clear: bool, ring: seq<Entry>, last: Entry) returns (k: nat)
    requires last.event != Set
    ensures Takes(offset, size, clear, last, ring, DrainLoop(offset, size, clear, last, ring), k)
    decreases |ring|
  {
    if Draining(offset, size, clear, last) && ring != [] {
      var clear' := ClearAfterDequeue(clear, |ring|);
      if ring[0].event == Set {
        k := 1;
        assert DrainLoop(offset, size, clear', ring[0], ring[1..]) == Drained(clear', ring[0], ring[1..]);
      } else {
        var k' := DrainLoopSkips(offset, size, clear', ring[1..], ring[0]);
        k := k' + 1;
        TakesOneMore(offset, size, clear, clear', last, ring, DrainLoop(offset, size, clear, last, ring), k');
      }
    } else {
      k := 0;
    }
  }

  lemma PassesOneMore(scanned: bool, ring: seq<Entry>, k: nat)
    requires k < |ring| && ring[0].event != Set && (k > 0 ==> scanned || |ring| >= 10922) && PassesOver(scanned, ring[1..], k)
    ensures PassesOver(scanned, ring, k + 1)
  {
    forall i | 0 <= i < k ensures ring[i].event != Set && (scanned || |ring| - i >= 10922) {
      if i > 0 {
        var j := i - 1;
        assert ring[1..][j] == ring[i];
      }
    }
  }

  lemma TakesOneMore(offset: nat, size: nat, clear: bool, clear': bool, last: Entry, ring: seq<Entry>, d: Drained, k: nat)
    requires ring != [] && ring[0].event != Set && TakesChanges(offset, size, clear)
    requires clear' <==> clear && |ring| >= 10922
    requires Takes(offset, size, clear', ring[0], ring[1..], d, k)
    ensures Takes(offset, size, clear, last, ring, d, k + 1)
  {
    assert ring[1..][k..] == ring[k + 1..];
    assert k > 0 ==> ring[1..][k - 1] == ring[k];
    PassesOneMore(offset == size, ring, k);
    assert StopsAfter(offset == size, true, ring, k + 1);
  }

  /** The next stretch of the scan. */
  ghost predicate ScanChunk(offset: nat, size: nat, c: Choice) {
    c.Transfer? && c.from == offset && c.offset == offset + c.len && c.len == if size - offset < 8388608 then size - offset else 8388608
  }

  /**
   mirror_setup_next_xfer in plain numbers.  During the scan, with the flag off and the ring at most
   half full, nothing is taken and the next 8 MiB go.  Otherwise changes go first, the oldest one,
   and during the scan only until the ring is found less than a quarter full.
   */
  lemma SetupIff(offset: nat, size: nat, clear: bool, ring: seq<Entry>) returns (k: nat)
    requires offset <= size
    ensures var d := Drain(offset, size, clear, ring);
            var c := Choose(offset, size, d.last);
            && Takes(offset, size, clear || (offset < size && |ring| > 21845), NO_ENTRY, ring, d, k)
            && (offset < size && !clear && |ring| <= 21845 ==> k == 0 && !d.clear)
            && (if k > 0 && ring[k - 1].event == Set then c == Transfer(ring[k - 1].from, ring[k - 1].len, offset)
                else if offset < size then ScanChunk(offset, size, c)
                else c == NoTransfer)
  {
    k := DrainLoopSkips(offset, size, ClearAtStart(offset, size, clear, |ring|), ring, NO_ENTRY);
  }

  // ----- one setup after the other -----

  datatype Pass = Pass(offset: nat, clear: bool, ring: seq<Entry>)

  /** One setup with nobody posting. */
  function SetUp(size: nat, p: Pass): Pass {
    var d := Drain(p.offset, size, p.clear, p.ring);
    var c := Choose(p.offset, size, d.last);
    Pass(if c.Transfer? then c.offset else p.offset, d.clear, d.ring)
  }

  function SetUps(size: nat, p: Pass, n: nat): Pass
    decreases n
  {
    if n == 0 then p else SetUps(size, SetUp(size, p), n - 1)
  }

  /** The flag is on only while there are that many entries; each setup then takes one at least. */
  lemma SetUpMoves(size: nat, p: Pass)
    requires p.offset <= size && (p.clear ==> |p.ring| >= 10921)
    ensures var q := SetUp(size, p);
            && q.offset <= size && |q.ring| <= |p.ring| && (q.clear ==> |q.ring| >= 10921)
            && (p.clear || (p.offset < size && |p.ring| > 21845) ==> |q.ring| < |p.ring|)
            && (q.clear ==> p.clear || (p.offset < size && |p.ring| > 21845)) && (p.offset == size ==> q.offset == size)
  {
    var k := SetupIff(p.offset, size, p.clear, p.ring);
  }

  /**
   With nobody posting, the flag goes off after as many setups as there are entries above a quarter
   of the ring, while there are entries left, and stays off.
   */
  lemma {:induction false} DrainingEnds(size: nat, p: Pass, n: nat)
    requires p.offset <= size && (p.clear ==> |p.ring| >= 10921) && |p.ring| <= 10921 + n
    ensures !SetUps(size, p, n + 1).clear
    decreases n
  {
    var q := SetUp(size, p);
    SetUpMoves(size, p);
    if n == 0 {
      assert SetUps(size, p, 1) == SetUps(size, q, 0) == q;
    } else if |q.ring| <= 10921 + (n - 1) {
      DrainingEnds(size, q, n - 1);
    } else {
      StaysOff(size, p, n + 1);
    }
  }

  /** Off, with the scan over or the ring at most half full, it stays off. */
  lemma {:induction false} StaysOff(size: nat, p: Pass, n: nat)
    requires p.offset <= size && !p.clear && (p.offset == size || |p.ring| <= 21845)
    ensures !SetUps(size, p, n).clear
    decreases n
  {
    if n > 0 {
      SetUpMoves(size, p);
      StaysOff(size, SetUp(size, p), n - 1);
    }
  }

  // ----- one transfer -----

  /** A transfer as the wire would carry it, were the mapping to stand still. */
  function WholeTransfer(header: seq<byte>, mapped: seq<byte>, from: nat, len: nat): (s: seq<byte>)
    requires |header| == REQUEST_SIZE && from + len <= |mapped|
    ensures |s| == REQUEST_SIZE + len
  {
    header + mapped[from..from + len]
  }

  lemma PayloadSlice(header: seq<byte>, mapped: seq<byte>, from: nat, len: nat, k: nat, count: nat)
    requires from + len <= |mapped| && k + count <= len
    ensures (header + mapped[from..from + len])[|header| + k..|header| + k + count] == mapped[from + k..from + k + count]
  {
    var a := (header + mapped[from..from + len])[|header| + k..|header| + k + count];
    var b := mapped[from + k..from + k + count];
    forall i | 0 <= i < count ensures a[i] == b[i] {
      assert a[i] == mapped[from..from + len][k + i];
    }
  }

  /** The checks of mirror_read_cb on a complete reply. */
  predicate GoodReply(reply: seq<byte>)
    requires |reply| == REPLY_SIZE
  {
    var r := DecodeReply(reply);
    r.magic == REPLY_MAGIC && r.error == 0 && r.handle == MIRROR_HANDLE
  }

  /** The mirror goes on exactly if the listener answers as a server that carried the transfer out. */
  lemma GoodReplyIff(disk: seq<byte>, from: nat, len: nat, reply: seq<byte>)
    requires from + len <= |disk| && |reply| == REPLY_SIZE
    ensures GoodReply(reply) <==> reply == ReplyBytes(disk, MirrorRequest(from, len))
  {
    Widths();
    ReplyRoundTrip(Reply(REPLY_MAGIC, 0, MIRROR_HANDLE));
    ReplyBytesRoundTrip(reply);
    assert ReplyBytes(disk, MirrorRequest(from, len)) == EncodeReply(Reply(REPLY_MAGIC, 0, MIRROR_HANDLE));
  }

  datatype Verdict = Incomplete | Accepted | Rejected

  class Ctrl {
    const size: nat
    const stream: Stream
    var offset: nat
    var clearEvents: bool
    var from: nat
    var len: nat
    var written: nat
    var read: nat
    var header: seq<byte>
    var reply: seq<byte>

    constructor (size: nat, stream: Stream)
      ensures this.size == size && this.stream == stream
      ensures offset == 0 && !clearEvents && written == 0 && read == 0 && |header| == REQUEST_SIZE && |reply| == REPLY_SIZE
    {
      this.size, this.stream := size, stream;
      offset, clearEvents := 0, false;
      from, len, written, read := 0, 0, 0, 0;
      header, reply := seq(REQUEST_SIZE, _ => 0), seq(REPLY_SIZE, _ => 0);
    }

    /** The transfer of [f, f + l) is ready to go. */
    ghost predicate Ready(f: nat, l: nat)
      reads this
    {
      from == f && len == l && written == read == 0 && header == EncodeRequest(MirrorRequest(f, l))
    }

    /** The dequeue loop of mirror_setup_next_xfer: the last entry taken, if any. */
    method DrainEvents() returns (e: Entry)
      requires stream.Valid()
      modifies this`clearEvents, stream
      ensures stream.Valid() && stream.entries == old(stream.entries) && stream.log == old(stream.log)
      ensures Drained(clearEvents, e, stream.Contents())
           == DrainLoop(offset, size, old(clearEvents), NO_ENTRY, old(stream.Contents()))
    {
      e := NO_ENTRY;
      ghost var target := DrainLoop(offset, size, clearEvents, e, stream.Contents());
      while (offset == size || clearEvents) && e.event != Set
        invariant stream.Valid() && stream.entries == old(stream.entries) && stream.log == old(stream.log)
        invariant DrainLoop(offset, size, clearEvents, e, stream.Contents()) == target
        decreases stream.size
      {
        var events := stream.size;
        if events == 0 {
          break;
        }
        ghost var q := stream.Contents();
        e := stream.Pop();
        assert stream.Contents() == q[1..];
        if events < STREAM_SIZE / 4 {
          clearEvents := false;
        }
      }
    }

    /** mirror_setup_next_xfer */
    method SetupNextXfer() returns (next: bool)
      requires stream.Valid() && offset <= size
      modifies this, stream
      ensures stream.Valid() && stream.entries == old(stream.entries) && stream.log == old(stream.log)
      ensures var d := Drain(old(offset), size, old(clearEvents), old(stream.Contents()));
              && stream.Contents() == d.ring && clearEvents == d.clear
              && (match Choose(old(offset), size, d.last)
                  case NoTransfer => !next && offset == old(offset)
                  case Transfer(f, l, o) => next && offset == o && Ready(f, l))
    {
      if offset < size && stream.size > STREAM_SIZE / 2 {
        clearEvents := true;
      }
      var e := DrainEvents();
      next := Pick(e);
    }

    /** The rest of mirror_setup_next_xfer, once the loop has ended with entry `e`. */
    method Pick(e: Entry) returns (next: bool)
      requires offset <= size
      modifies this`offset, this`from, this`len, this`written, this`read, this`header
      ensures match Choose(old(offset), size, e)
              case NoTransfer => !next && offset == old(offset)
              case Transfer(f, l, o) => next && offset == o && Ready(f, l)
    {
      if e.event == Set {
        from, len := e.from, e.len;
      } else if offset < size {
        from, len := offset, LONGEST_WRITE;
        if from + len > size {
          len := size - from;
        }
        offset := offset + len;
      } else {
        return false;
      }
      header := EncodeRequest(MirrorRequest(from, len));
      written, read := 0, 0;
      return true;
    }

    /**
     mirror_write_cb, given the mapping as it is now and how many bytes the socket takes: the
     next bytes of the transfer go out, and the callback knows when it was the last of them.
     */
    method WriteCb(mapped: seq<byte>, room: nat) returns (sent: seq<byte>, done: bool)
      requires |header| == REQUEST_SIZE && written < REQUEST_SIZE + len && from + len <= |mapped|
      modifies this`written
      ensures old(written) <= written <= REQUEST_SIZE + len && |sent| <= room
      ensures sent == WholeTransfer(header, mapped, from, len)[old(written)..written]
      ensures old(written) < REQUEST_SIZE ==> written <= REQUEST_SIZE
      ensures done <==> written == REQUEST_SIZE + len
      ensures room > 0 ==> written > old(written)
    {
      if written < REQUEST_SIZE {
        var count := Min(room, REQUEST_SIZE - written);
        sent := header[written..written + count];
        written := written + count;
      } else {
        var at := from + (written - REQUEST_SIZE);
        var count := Min(room, len - (written - REQUEST_SIZE));
        sent := mapped[at..at + count];
        PayloadSlice(header, mapped, from, len, written - REQUEST_SIZE, count);
        written := written + count;
      }
      done := written == len + REQUEST_SIZE;
    }

    /** mirror_read_cb up to the next transfer, given what the socket holds. */
    method ReadCb(data: seq<byte>) returns (v: Verdict)
      requires |reply| == REPLY_SIZE && data != [] && read + |data| <= REPLY_SIZE
      modifies this`read, this`written, this`reply
      ensures |reply| == REPLY_SIZE && reply == Splice(old(reply), old(read), data)
      ensures v.Incomplete? <==> old(read) + |data| < REPLY_SIZE
      ensures v.Incomplete? ==> read == old(read) + |data| && written == old(written)
      ensures v.Accepted? <==> old(read) + |data| == REPLY_SIZE && GoodReply(reply)
      ensures v.Accepted? ==> read == written == 0
    {
      reply := Splice(reply, read, data);
      read := read + |data|;
      if read < REPLY_SIZE {
        return Incomplete;
      }
      var rsp := DecodeReply(reply);
      if rsp.magic != REPLY_MAGIC {
        return Rejected;
      }
      if rsp.error != 0 {
        return Rejected;
      }
      if rsp.handle != MIRROR_HANDLE {
        return Rejected;
      }
      read, written := 0, 0;
      return Accepted;
    }
  }

  // ----- the routine and the steps -----

  lemma PayloadSent(header: seq<byte>, x: Xfer, src: seq<byte>, count: nat)
    requires |header| == REQUEST_SIZE && x.Xfer? && REQUEST_SIZE <= x.written <= REQUEST_SIZE + x.len
    requires x.from + x.len <= |src| && count <= ToWrite(x)
    ensures var at := x.from + (x.written - REQUEST_SIZE);
            WholeTransfer(header, src, x.from, x.len)[x.written..x.written + count] == src[at..at + count]
  {
    PayloadSlice(header, src, x.from, x.len, x.written - REQUEST_SIZE, count);
  }

  /** What WriteCb does is the step MirrorWrite, whatever went over the wire before. */
  lemma WriteCbIsStep(header: seq<byte>, x: Xfer, src: seq<byte>, count: nat)
    requires |header| == REQUEST_SIZE && x.Xfer? && x.written <= REQUEST_SIZE + x.len && x.from + x.len <= |src| && count <= ToWrite(x)
    ensures var sent := WholeTransfer(header, src, x.from, x.len)[x.written..x.written + count];
            && SendMore(x, src, count).written == x.written + |sent|
            && SendMore(x, src, count).wire == if x.written < REQUEST_SIZE then x.wire else x.wire + sent
  {
    if x.written >= REQUEST_SIZE {
      PayloadSent(header, x, src, count);
    }
  }

  /** `n` dequeues from a ring of `queued` entries, each seeing the ring as it is. */
  function Dequeues(queued: nat, n: nat): seq<Step>
    requires n <= queued
  {
    if n == 0 then [] else [SetupDequeue(queued)] + Dequeues(queued - 1, n - 1)
  }

  /** `run` does to `s` what the dequeue loop does. */
  ghost predicate Drains(s: State, run: seq<Step>)
    requires s.phase.Setup?
  {
    var d := DrainLoop(s.offset, s.size, s.clear, s.phase.last, s.ring);
    var t := s.(clear := d.clear, ring := d.ring, phase := s.phase.(last := d.last));
    CanRun(s, run) && Exec(s, run) == t && Enabled(t, SetupEnd)
  }

  lemma DrainsMore(s: State, rest: seq<Step>)
    requires Enabled(s, SetupDequeue(|s.ring|)) && Drains(Dequeue(s, |s.ring|), rest)
    ensures Drains(s, [SetupDequeue(|s.ring|)] + rest)
  {
    Prepend(s, SetupDequeue(|s.ring|), rest);
  }

  lemma DrainsNone(s: State)
    requires s.phase.Setup? && s.phase.begun && !Enabled(s, SetupDequeue(|s.ring|))
    ensures Drains(s, [])
  {
  }

  lemma {:induction false} DrainLoopIsSteps(s: State) returns (n: nat)
    requires s.phase.Setup? && s.phase.begun
    ensures n <= |s.ring| && Drains(s, Dequeues(|s.ring|, n))
    decreases |s.ring|
  {
    if Enabled(s, SetupDequeue(|s.ring|)) {
      var t := Dequeue(s, |s.ring|);
      var m := DrainLoopIsSteps(t);
      n := m + 1;
      DrainsMore(s, Dequeues(|t.ring|, m));
    } else {
      n := 0;
      DrainsNone(s);
    }
  }

  /**
   Run without interference, begin, dequeues and end leave the ring, the flag and the
   transfer that the contract of SetupNextXfer describes.
   */
  lemma SetupIsSteps(s: State) returns (run: seq<Step>)
    requires s.phase.Setup? && !s.phase.begun && s.phase.last == NO_ENTRY
    ensures CanRun(s, run)
    ensures var d := Drain(s.offset, s.size, s.clear, s.ring);
            var drained := s.(clear := d.clear, ring := d.ring, phase := Setup(s.phase.round, true, d.last));
            Enabled(drained, SetupEnd) && Exec(s, run) == MigrationSteps.End(drained)
  {
    var n := DrainLoopIsSteps(Begin(s));
    var dequeues := Dequeues(|s.ring|, n);
    var e := Exec(Begin(s), dequeues);
    Prepend(e, SetupEnd, []);
    assert [SetupEnd] + [] == [SetupEnd];
    ExecConcat(Begin(s), dequeues, [SetupEnd]);
    Prepend(s, SetupBegin, dequeues + [SetupEnd]);
    run := [SetupBegin] + (dequeues + [SetupEnd]);
  }
}
