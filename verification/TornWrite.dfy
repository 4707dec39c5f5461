/**
 Why migration safety leaves torn bytes out: a client that breaks off mid-payload has changed
 the mapping and posts nothing (src/server/client.c:161-167), so a migration can complete with
 a byte that differs.  Which bytes that can happen to: all but the last one of the image.
 */
module TornWrite {
  import opened Bytes
  import opened EventStream
  import opened Schedule
  import opened Wire
  import opened MigrationSteps
  import opened Migration

  /** Any image, any listener, one idle client, no attempt yet. */
  function Before(src: seq<byte>, dst: seq<byte>): State {
    State(|src|, src, dst, [], false, map[7 := Idle], {}, true, true, 0, false, false, NoXfer, Resting, [])
  }

  // ----- the scan, undisturbed -----

  /** An attempt that nobody has disturbed: all bytes before `upTo` are copied. */
  ghost predicate Undisturbed(s: State, src: seq<byte>, upTo: nat) {
    && s.size == |src| == |s.dst| && s.src == src && upTo <= s.size < WORD
    && s.dst[..upTo] == src[..upTo]
    && s.clients == map[7 := Idle] && s.torn == {} && s.allowNew && s.listening
    && !s.clear && !s.clientsClosed
  }

  /** A fresh transfer of the bytes at `from` is about to be sent. */
  ghost predicate Loaded(s: State, src: seq<byte>, from: nat) {
    && Undisturbed(s, src, from) && from < s.offset <= s.size
    && s.ring == [Entry(On, 0, |src|)] && s.streaming && s.phase == Sending
    && s.xfer == Xfer(from, s.offset - from, 0, 0, [], 0, false)
  }

  /** It has been sent, applied and acknowledged, and the next one is to be set up. */
  ghost predicate Scanned(s: State, src: seq<byte>) {
    && Undisturbed(s, src, s.offset)
    && s.ring == [Entry(On, 0, |src|)] && s.streaming && s.phase == Setup(Later, false, NO_ENTRY) && s.xfer == NoXfer
  }

  lemma Arms(o: State, src: seq<byte>, calm: bool) returns (t: State)
    requires o == Before(src, o.dst) && 0 < |src| == |o.dst| < WORD
    ensures Reaches(o, t, calm) && Undisturbed(t, src, 0) && t.phase == Arming && t.ring == []
    ensures 0 < t.offset <= t.size && t.xfer == Xfer(0, t.offset, 0, 0, [], 0, false)
  {
    Stays(o, calm);
    var s1 := Start(o, o.dst);
    Onward(o, o, StartAttempt(o.dst), s1, calm);
    var s2 := Begin(s1);
    Onward(o, s1, SetupBegin, s2, calm);
    t := End(s2);
    Onward(o, s2, SetupEnd, t, calm);
  }

  lemma Begins(o: State, src: seq<byte>, calm: bool) returns (t: State)
    requires o == Before(src, o.dst) && 0 < |src| == |o.dst| < WORD
    ensures Reaches(o, t, calm) && Loaded(t, src, 0)
  {
    var s := Arms(o, src, calm);
    t := Enable(s);
    Onward(o, s, EnableStream, t, calm);
  }

  lemma SendsHeader(o: State, s: State, src: seq<byte>, from: nat, calm: bool) returns (t: State)
    requires Reaches(o, s, calm) && Loaded(s, src, from)
    ensures Reaches(o, t, calm) && t == s.(xfer := s.xfer.(written := REQUEST_SIZE))
  {
    t := Write(s, REQUEST_SIZE);
    Onward(o, s, MirrorWrite(REQUEST_SIZE), t, calm);
  }

  lemma PayloadAtOnce(src: seq<byte>, from: nat, to: nat)
    requires from < to <= |src|
    ensures SendMore(Xfer(from, to - from, REQUEST_SIZE, 0, [], 0, false), src, to - from)
         == Xfer(from, to - from, REQUEST_SIZE + (to - from), 0, src[from..to], 0, false)
  {
    assert [] + src[from..to] == src[from..to];
  }

  lemma SendsPayload(o: State, s: State, src: seq<byte>, from: nat, calm: bool) returns (t: State)
    requires Reaches(o, s, calm) && s.phase == Sending && s.src == src && from < s.offset <= s.size == |src|
    requires s.xfer == Xfer(from, s.offset - from, REQUEST_SIZE, 0, [], 0, false)
    ensures Reaches(o, t, calm)
    ensures t == s.(phase := Reading,
                    xfer := Xfer(from, s.offset - from, REQUEST_SIZE + (s.offset - from), 0, src[from..s.offset], 0, false))
  {
    var n := s.offset - from;
    PayloadAtOnce(src, from, s.offset);
    t := Write(s, n);
    Onward(o, s, MirrorWrite(n), t, calm);
  }

  lemma CopiedFurther(src: seq<byte>, dst: seq<byte>, from: nat, to: nat)
    requires |src| == |dst| && from <= to <= |src| && dst[..from] == src[..from]
    ensures Splice(dst, from, src[from..to])[..to] == src[..to]
  {
    var a, b := Splice(dst, from, src[from..to])[..to], src[..to];
    forall i | 0 <= i < to ensures a[i] == b[i] {
      assert i < from ==> dst[..from][i] == src[..from][i];
    }
  }

  /** The payload is applied at once. */
  lemma AppliedAtOnce(s: State, from: nat, data: seq<byte>)
    requires s.xfer == Xfer(from, |data|, REQUEST_SIZE + |data|, 0, data, 0, false) && from + |data| <= |s.dst|
    ensures Enabled(s, DestApply(|data|))
    ensures ApplyAtDest(s, |data|) == s.(dst := Splice(s.dst, from, data), xfer := s.xfer.(applied := |data|))
  {
    assert data[0..|data|] == data;
  }

  lemma Lands(o: State, s: State, src: seq<byte>, from: nat, calm: bool) returns (t: State)
    requires Reaches(o, s, calm) && Undisturbed(s, src, from) && from <= s.offset <= s.size && s.phase == Reading
    requires s.xfer == Xfer(from, s.offset - from, REQUEST_SIZE + (s.offset - from), 0, src[from..s.offset], 0, false)
    ensures Reaches(o, t, calm) && t == s.(dst := t.dst, xfer := s.xfer.(applied := s.xfer.len))
    ensures |t.dst| == |src| && t.dst[..s.offset] == src[..s.offset]
  {
    var data := src[from..s.offset];
    AppliedAtOnce(s, from, data);
    t := ApplyAtDest(s, |data|);
    Onward(o, s, DestApply(|data|), t, calm);
    CopiedFurther(src, s.dst, from, s.offset);
  }

  lemma Arrives(o: State, s: State, src: seq<byte>, from: nat, calm: bool) returns (t: State)
    requires Reaches(o, s, calm) && Undisturbed(s, src, from) && from <= s.offset <= s.size && s.phase == Reading
    requires s.xfer == Xfer(from, s.offset - from, REQUEST_SIZE + (s.offset - from), 0, src[from..s.offset], 0, false)
    ensures Reaches(o, t, calm) && t.xfer == s.xfer.(applied := s.xfer.len, acked := true)
    ensures t == s.(dst := t.dst, xfer := t.xfer) && Undisturbed(t, src, s.offset)
  {
    var s1 := Lands(o, s, src, from, calm);
    t := Ack(s1);
    Onward(o, s1, DestAck, t, calm);
  }

  lemma Transfers(o: State, s: State, src: seq<byte>, from: nat, calm: bool) returns (t: State)
    requires Reaches(o, s, calm) && Loaded(s, src, from)
    ensures Reaches(o, t, calm) && Scanned(t, src) && t.offset == s.offset
  {
    var s1 := SendsHeader(o, s, src, from, calm);
    var s2 := SendsPayload(o, s1, src, from, calm);
    var s3 := Arrives(o, s2, src, from, calm);
    t := Read(s3, REPLY_SIZE);
    Onward(o, s3, MirrorRead(REPLY_SIZE), t, calm);
  }

  lemma ChoosesNext(o: State, s: State, src: seq<byte>, calm: bool) returns (t: State)
    requires Reaches(o, s, calm) && Scanned(s, src) && s.offset < s.size
    ensures Reaches(o, t, calm) && s.offset < t.offset <= s.size
    ensures t == s.(offset := t.offset, scans := t.scans, phase := Decide(true),
                    xfer := Xfer(s.offset, t.offset - s.offset, 0, 0, [], 0, false))
  {
    var s1 := Begin(s);
    Onward(o, s, SetupBegin, s1, calm);
    t := End(s1);
    Onward(o, s1, SetupEnd, t, calm);
  }

  lemma LoadsNext(o: State, s: State, src: seq<byte>, calm: bool) returns (t: State)
    requires Reaches(o, s, calm) && Scanned(s, src) && s.offset < s.size
    ensures Reaches(o, t, calm) && Loaded(t, src, s.offset)
  {
    var s1 := ChoosesNext(o, s, src, calm);
    t := DecideOn(s1, false);
    Onward(o, s1, DecideNext(false), t, calm);
  }

  /** Chunk after chunk, to the end of the image. */
  lemma {:induction false} ScansOn(o: State, s: State, src: seq<byte>, calm: bool) returns (t: State)
    requires Reaches(o, s, calm) && Scanned(s, src)
    ensures Reaches(o, t, calm) && Scanned(t, src) && t.offset == t.size
    decreases s.size - s.offset
  {
    if s.offset == s.size {
      t := s;
    } else {
      var s1 := LoadsNext(o, s, src, calm);
      var s2 := Transfers(o, s1, src, s.offset, calm);
      t := ScansOn(o, s2, src, calm);
    }
  }

  // ----- the tear -----

  lemma Stores(o: State, s: State, src: seq<byte>, b: nat, v: byte) returns (t: State)
    requires Reaches(o, s, false) && Scanned(s, src) && b + 1 < s.size
    ensures Reaches(o, t, false) && t == s.(src := src[b := v], clients := map[7 := Storing(b, b + 2, b + 1)])
  {
    var s1 := s.(clients := s.clients[7 := Storing(b, b + 2, b)]);
    Onward(o, s, BeginPiece(7, b, b + 2), s1, false);
    t := Store(s1, 7, [v]);
    Onward(o, s1, StoreBytes(7, [v]), t, false);
    assert t.src == src[b := v];
    assert t.clients == map[7 := Storing(b, b + 2, b + 1)];
  }

  lemma Tears(o: State, s: State, src: seq<byte>, b: nat, v: byte) returns (t: State)
    requires Reaches(o, s, false) && Scanned(s, src) && b + 1 < s.size
    ensures Reaches(o, t, false) && t == s.(src := src[b := v], clients := map[], torn := {b})
  {
    var s1 := Stores(o, s, src, b, v);
    t := Tear(s1, 7);
    Onward(o, s1, Abort(7), t, false);
    assert t.torn == {b};
    assert t.clients == map[];
  }

  // ----- the end -----

  /** The scan is over, no client is left, and only the entry that turned the stream on is queued. */
  ghost predicate Lonely(s: State) {
    && s.offset == s.size && s.clients == map[] && s.xfer == NoXfer && !s.clear && !s.clientsClosed && s.listening
    && |s.ring| == 1 && s.ring[0].event == On && s.phase == Setup(Later, false, NO_ENTRY)
  }

  lemma Drains(o: State, s: State, calm: bool) returns (t: State)
    requires Reaches(o, s, calm) && Lonely(s)
    ensures Reaches(o, t, calm) && t == s.(ring := [], phase := Decide(false))
  {
    var s1 := Begin(s);
    Onward(o, s, SetupBegin, s1, calm);
    var s2 := Dequeue(s1, 1);
    Onward(o, s1, SetupDequeue(1), s2, calm);
    t := End(s2);
    Onward(o, s2, SetupEnd, t, calm);
  }

  lemma Joins(o: State, s: State, calm: bool) returns (t: State)
    requires Reaches(o, s, calm) && s.phase == Decide(false) && !s.clientsClosed && s.clients == map[]
    ensures Reaches(o, t, calm) && t == s.(allowNew := false, clientsClosed := true, phase := Setup(Later, false, NO_ENTRY))
  {
    var s1 := DecideOn(s, false);
    Onward(o, s, DecideNext(false), s1, calm);
    t := Join(s1);
    Onward(o, s1, JoinClients, t, calm);
  }

  lemma Completes(o: State, s: State, calm: bool) returns (t: State)
    requires Reaches(o, s, calm) && s.phase == Setup(Later, false, NO_ENTRY)
    requires s.clientsClosed && s.ring == [] && s.offset == s.size && !s.clear
    ensures Reaches(o, t, calm) && t == s.(phase := Completing)
  {
    var s1 := Begin(s);
    Onward(o, s, SetupBegin, s1, calm);
    var s2 := End(s1);
    Onward(o, s1, SetupEnd, s2, calm);
    t := DecideOn(s2, false);
    Onward(o, s2, DecideNext(false), t, calm);
  }

  lemma HandsOver(o: State, s: State, calm: bool) returns (t: State)
    requires Reaches(o, s, calm) && s.phase == Completing
    ensures Reaches(o, t, calm) && t == s.(listening := false, phase := Done)
  {
    var s1 := Apply(s, ServerCloses);
    Onward(o, s, ServerCloses, s1, calm);
    t := Apply(s1, SendDisconnect(MIRROR_HANDLE));
    Onward(o, s1, SendDisconnect(MIRROR_HANDLE), t, calm);
  }

  lemma Finishes(o: State, s: State, calm: bool) returns (t: State)
    requires Reaches(o, s, calm) && Lonely(s)
    ensures Reaches(o, t, calm) && t.phase.Done? && t.src == s.src && t.dst == s.dst && t.torn == s.torn
  {
    var s1 := Drains(o, s, calm);
    var s2 := Joins(o, s1, calm);
    var s3 := Completes(o, s2, calm);
    t := HandsOver(o, s3, calm);
  }

  /** Whatever the image and whatever the listener holds, any byte but the last can end up different. */
  lemma TornByteCanDiffer(src: seq<byte>, dst: seq<byte>, b: nat) returns (t: State)
    requires |src| == |dst| < WORD && b + 1 < |src|
    ensures Initial(Before(src, dst)) && Reaches(Before(src, dst), t, false)
    ensures t.phase.Done? && t.torn == {b} && |t.src| == |t.dst| == |src| && t.dst[b] != t.src[b]
  {
    var o := Before(src, dst);
    var s1 := Begins(o, src, false);
    var s2 := Transfers(o, s1, src, 0, false);
    var s3 := ScansOn(o, s2, src, false);
    var v: byte := if src[b] == 0 then 1 else 0;
    var s4 := Tears(o, s3, src, b, v);
    assert s3.dst[..s3.size][b] == src[..s3.size][b];
    t := Finishes(o, s4, false);
  }

  /** The client leaves, and nobody ever stores a thing. */
  lemma CalmlyDone(src: seq<byte>, dst: seq<byte>) returns (t: State)
    requires 0 < |src| == |dst| < WORD
    ensures Initial(Before(src, dst)) && Reaches(Before(src, dst), t, true)
    ensures t.phase.Done? && t.torn == {} && t.src == src
  {
    var o := Before(src, dst);
    var s1 := Begins(o, src, true);
    var s2 := Transfers(o, s1, src, 0, true);
    var s3 := ScansOn(o, s2, src, true);
    var s4 := s3.(clients := map[]);
    assert s3.clients - {7} == map[];
    Onward(o, s3, ClientExit(7), s4, true);
    t := Finishes(o, s4, true);
  }

  // ----- and the last byte cannot -----

  /** No torn byte is the last one: a piece breaks off before its last byte. */
  ghost predicate LastWhole(s: State) {
    forall i :: i in s.torn ==> i + 1 < s.size
  }

  lemma StepLastWhole(s: State, a: Step)
    requires Shape(s) && LastWhole(s) && Enabled(s, a)
    ensures LastWhole(Apply(s, a)) && Apply(s, a).size == s.size
  {
    if a.Abort? {
      assert Tear(s, a.c).size == s.size;
    } else {
      StepTears(s, a);
    }
  }

  lemma {:induction false} RunLastWhole(s: State, run: seq<Step>)
    requires Inv(s) && LastWhole(s) && CanRun(s, run)
    ensures LastWhole(Exec(s, run)) && Exec(s, run).size == s.size && Inv(Exec(s, run))
    decreases |run|
  {
    if run != [] {
      StepKeepsInv(s, run[0]);
      StepLastWhole(s, run[0]);
      RunLastWhole(Apply(s, run[0]), run[1..]);
    }
  }

  /** Some migration of an image of `size` bytes hands over with byte `b` different. */
  ghost predicate CanDiffer(size: nat, b: nat) {
    exists s, t :: Initial(s) && s.torn == {} && s.size == size && Reaches(s, t, false) && Differs(t, b)
  }

  ghost predicate Differs(t: State, b: nat) {
    t.phase.Done? && b < |t.src| == |t.dst| && t.dst[b] != t.src[b]
  }

  /** A torn byte can differ at the handover exactly if it is not the last one. */
  lemma TornByteIff(size: nat, b: nat)
    requires b < size < WORD
    ensures CanDiffer(size, b) <==> b + 1 < size
  {
    if b + 1 < size {
      var image := seq(size, _ => 0);
      var t := TornByteCanDiffer(image, image, b);
      assert Differs(t, b);
    } else {
      forall s, t | Initial(s) && s.torn == {} && s.size == size && Reaches(s, t, false) ensures !Differs(t, b) {
        LastAgrees(s, t, b);
      }
    }
  }

  lemma LastAgrees(s: State, t: State, b: nat)
    requires Initial(s) && s.torn == {} && b + 1 == s.size && Reaches(s, t, false)
    ensures !Differs(t, b)
  {
    var run :| CanRun(s, run) && Exec(s, run) == t;
    RunLastWhole(s, run);
    if t.phase.Done? {
      FinishedAgrees(t);
      assert b !in t.torn;
    }
  }
}
