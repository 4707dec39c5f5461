/**
 What a server makes of a connection, its allocation map included: while the map is being built
 writes go straight to the file, afterwards through write_not_zeroes (src/server/client.c:453-471).
 Measured against NaiveDisk, which is what it is exactly while the map keeps its promise.
 */
module MapServer {
  import opened Bytes
  import opened Wire
  import opened NaiveDisk
  import opened SparseStores

  /**
   allocation_map_built as the writes of a connection find it: set, never set, or set after so many
   more requests, the builder having marked `blocks` by then.
   */
  datatype Build = Built | Never | After(requests: nat, blocks: seq<nat>)

  datatype Disk = Disk(bytes: seq<byte>, marked: set<nat>, build: Build)

  function BlockSet(blocks: seq<nat>): set<nat> {
    set b | b in blocks
  }

  /** The disk as the next request finds it. */
  function Tick(d: Disk): (e: Disk)
    ensures e.bytes == d.bytes
  {
    if !d.build.After? then d
    else if d.build.requests > 0 then d.(build := After(d.build.requests - 1, d.build.blocks))
    else d.(marked := d.marked + BlockSet(d.build.blocks), build := Built)
  }

  /** The blocks bitset_set_range marks for a direct write. */
  function Touched(from: nat, len: nat): set<nat> {
    if from + len == 0 then {} else Interval(from / BLOCK, (from + len - 1) / BLOCK + 1)
  }

  /** A write that came in full. */
  function Stored(d: Disk, from: nat, data: seq<byte>): (e: Disk)
    requires from + |data| <= |d.bytes|
    ensures |e.bytes| == |d.bytes|
  {
    if d.build.Built? then
      var y := SparseStore(Store(d.bytes, d.marked), from, data);
      d.(bytes := y.bytes, marked := y.marked)
    else d.(bytes := Splice(d.bytes, from, data), marked := d.marked + Touched(from, |data|))
  }

  function Answered(d: Disk, r: Request, payload: seq<byte>): (e: Disk)
    requires |payload| == PayloadLength(r)
    ensures |e.bytes| == |d.bytes|
  {
    if ErrorFor(|d.bytes|, r) == 0 && r.typ == REQUEST_WRITE then Stored(d, r.from, payload) else d
  }

  datatype Outcome = Outcome(disk: Disk, out: seq<byte>, end: End)

  /** A whole connection; compare NaiveDisk.Run. */
  function Serve(d: Disk, input: seq<byte>): (s: Outcome)
    decreases |input|
  {
    if |input| < REQUEST_SIZE then Outcome(d, [], PeerStopped)
    else
      var e := Tick(d);
      var r := DecodeRequest(input[..REQUEST_SIZE]);
      var tail := input[REQUEST_SIZE..];
      if r.magic != REQUEST_MAGIC then Outcome(e, ReplyBytes(e.bytes, r), BadMagic)
      else if IsDisconnect(|e.bytes|, r) then Outcome(e, [], Disconnected)
      else if |tail| < PayloadLength(r) then
        Outcome(e, [], if InRange(|e.bytes|, r) then CutOff(r.from, tail) else Stuck)
      else
        var next := Serve(Answered(e, r, tail[..PayloadLength(r)]), tail[PayloadLength(r)..]);
        next.(out := ReplyBytes(e.bytes, r) + next.out)
  }

  /** One answered request, taken off the front. */
  lemma ServeGoes(d: Disk, input: seq<byte>, r: Request)
    requires Goes(|d.bytes|, input) && r == DecodeRequest(input[..REQUEST_SIZE])
    ensures var tail := input[REQUEST_SIZE..];
            var n := PayloadLength(r);
            var next := Serve(Answered(Tick(d), r, tail[..n]), tail[n..]);
            Serve(d, input) == next.(out := ReplyBytes(d.bytes, r) + next.out)
  {
  }

  // ----- the input on which the program behaves -----

  /** The range test of client_request_needs_reply, a sum of two uint64_t (388). */
  predicate Refuses(size: nat, r: Request) {
    (r.from + r.len) % WORD > size
  }

  /** The sum does not wrap round to something that looks in range. */
  predicate SumHolds(size: nat, r: Request) {
    r.from + r.len < WORD || r.from + r.len - WORD > size
  }

  /** The test is right exactly then. */
  lemma RefusesIff(size: nat, r: Request)
    requires size < WORD && r.from < WORD && r.len < WORD
    ensures (Refuses(size, r) <==> !InRange(size, r)) <==> SumHolds(size, r)
  {
  }

  /**
   One request the program can deal with: its range test is right; a payload that is to be thrown
   away comes in full, for the loop that throws it away does not see the end of the stream
   (Sessions.FlushEndsIff); and, without an allocation map, it is not an empty write at the start of
   the file, whose blocks would be counted modulo 2^64 (Bitsets.SpanOfNothing).
   */
  predicate TameRequest(size: nat, mapBuilt: bool, r: Request, tail: seq<byte>) {
    r.magic == REQUEST_MAGIC ==>
      && SumHolds(size, r)
      && (r.typ == REQUEST_WRITE && !InRange(size, r) ==> |tail| >= r.len)
      && (r.typ == REQUEST_WRITE && !mapBuilt ==> 0 < r.from + r.len)
  }

  function Ticked(b: Build): Build {
    Tick(Disk([], {}, b)).build
  }

  /** Every request of a connection is one. */
  predicate Tame(size: nat, build: Build, input: seq<byte>)
    decreases |input|
  {
    |input| >= REQUEST_SIZE ==>
      var b := Ticked(build);
      var r := DecodeRequest(input[..REQUEST_SIZE]);
      var tail := input[REQUEST_SIZE..];
      && TameRequest(size, b.Built?, r, tail)
      && (Goes(size, input) ==> Tame(size, b, tail[PayloadLength(r)..]))
  }

  // ----- the promise -----

  /** A clear bit will mean a block of zeroes from the moment writes rely on it. */
  ghost predicate Promise(d: Disk) {
    match d.build
    case Built => SparseImage(d.marked, d.bytes)
    case Never => true
    case After(_, blocks) => SparseImage(d.marked + BlockSet(blocks), d.bytes)
  }

  lemma TickKeeps(d: Disk)
    requires Promise(d)
    ensures Promise(Tick(d))
  {
  }

  lemma DirectKeeps(marked: set<nat>, more: set<nat>, bytes: seq<byte>, from: nat, data: seq<byte>)
    requires SparseImage(marked + more, bytes) && from + |data| <= |bytes|
    ensures SparseImage(marked + Touched(from, |data|) + more, Splice(bytes, from, data))
  {
    forall i | 0 <= i < |bytes| && i / BLOCK !in marked + Touched(from, |data|) + more
      ensures Splice(bytes, from, data)[i] == 0
    {
      if from <= i < from + |data| {
        InTouched(from, |data|, i);
      }
    }
  }

  lemma InTouched(from: nat, len: nat, i: nat)
    requires from <= i < from + len
    ensures i / BLOCK in Touched(from, len)
  {
  }

  /** While the promise holds a write is a plain copy, and the promise goes on holding. */
  lemma StoredPlainly(d: Disk, from: nat, data: seq<byte>)
    requires Promise(d) && from + |data| <= |d.bytes|
    ensures Stored(d, from, data).bytes == Splice(d.bytes, from, data) && Promise(Stored(d, from, data))
  {
    match d.build
    case Built => SparseIsPlain(Store(d.bytes, d.marked), from, data);
    case Never =>
    case After(_, blocks) => DirectKeeps(d.marked, BlockSet(blocks), d.bytes, from, data);
  }

  lemma AnsweredPlainly(d: Disk, r: Request, payload: seq<byte>)
    requires Promise(d) && |payload| == PayloadLength(r)
    ensures Answered(d, r, payload).bytes == DiskAfter(d.bytes, r, payload) && Promise(Answered(d, r, payload))
  {
    if ErrorFor(|d.bytes|, r) == 0 && r.typ == REQUEST_WRITE {
      StoredPlainly(d, r.from, payload);
    }
  }

  /** The connection goes as with the naive server. */
  ghost predicate Same(d: Disk, input: seq<byte>) {
    var s, n := Serve(d, input), Run(d.bytes, input);
    s.disk.bytes == n.disk && s.out == n.out && s.end == n.end
  }

  /** With the promise kept at the start, the server is the naive one, and keeps it. */
  lemma {:induction false} ServesNaively(d: Disk, input: seq<byte>)
    requires Promise(d)
    ensures Same(d, input) && Promise(Serve(d, input).disk)
    decreases |input|
  {
    TickKeeps(d);
    if Goes(|d.bytes|, input) {
      var r := DecodeRequest(input[..REQUEST_SIZE]);
      var tail, n := input[REQUEST_SIZE..], PayloadLength(r);
      var e := Answered(Tick(d), r, tail[..n]);
      AnsweredPlainly(Tick(d), r, tail[..n]);
      ServesNaively(e, tail[n..]);
      ServeGoes(d, input, r);
      RunGoes(d.bytes, input, r);
    }
  }

  // ----- and exactly then -----

  function FlushRequest(): Request {
    Request(REQUEST_MAGIC, 0, REQUEST_FLUSH, MIRROR_HANDLE, 0, 0)
  }

  function ZeroWrite(b: nat): Request {
    Request(REQUEST_MAGIC, 0, REQUEST_WRITE, MIRROR_HANDLE, b, 1)
  }

  /** `wait` requests that change nothing, then a zero for byte `b`. */
  function Spoiler(wait: nat, b: nat): seq<byte> {
    if wait == 0 then EncodeRequest(ZeroWrite(b)) + [0] else EncodeRequest(FlushRequest()) + Spoiler(wait - 1, b)
  }

  lemma Taken(header: seq<byte>, rest: seq<byte>)
    requires |header| == REQUEST_SIZE
    ensures (header + rest)[..REQUEST_SIZE] == header && (header + rest)[REQUEST_SIZE..] == rest
  {
  }

  lemma Decodes(b: nat)
    requires b < WORD
    ensures DecodeRequest(EncodeRequest(ZeroWrite(b))) == ZeroWrite(b)
    ensures DecodeRequest(EncodeRequest(FlushRequest())) == FlushRequest()
  {
    Widths();
    RequestRoundTrip(ZeroWrite(b));
    RequestRoundTrip(FlushRequest());
  }

  lemma ZeroComes(d: Disk, b: nat)
    requires b < |d.bytes| < WORD
    ensures var x := Spoiler(0, b);
            && Serve(d, x).disk == Stored(Tick(d), b, [0]) && Run(d.bytes, x).disk == Splice(d.bytes, b, [0])
            && Tame(|d.bytes|, d.build, x)
  {
    var x := Spoiler(0, b);
    Decodes(b);
    Taken(EncodeRequest(ZeroWrite(b)), [0]);
    ServeGoes(d, x, ZeroWrite(b));
    RunGoes(d.bytes, x, ZeroWrite(b));
    assert [0][..1] == [0] && [0][1..] == [];
  }

  lemma FlushComes(d: Disk, wait: nat, b: nat)
    requires 0 < wait && b < |d.bytes| < WORD
    ensures var x, rest := Spoiler(wait, b), Spoiler(wait - 1, b);
            && Serve(d, x).disk == Serve(Tick(d), rest).disk && Run(d.bytes, x).disk == Run(d.bytes, rest).disk
            && (Tame(|d.bytes|, Ticked(d.build), rest) ==> Tame(|d.bytes|, d.build, x))
  {
    var x, rest := Spoiler(wait, b), Spoiler(wait - 1, b);
    Decodes(b);
    Taken(EncodeRequest(FlushRequest()), rest);
    assert rest[..0] == [] && rest[0..] == rest;
    ServeGoes(d, x, FlushRequest());
    RunGoes(d.bytes, x, FlushRequest());
  }

  /** The file ends up different from the naive server's, on input the program can deal with. */
  ghost predicate Spoiled(d: Disk, x: seq<byte>) {
    Tame(|d.bytes|, d.build, x) && Serve(d, x).disk.bytes != Run(d.bytes, x).disk
  }

  /** A zero that is not stored. */
  lemma ZeroSpoils(d: Disk, b: nat)
    requires b < |d.bytes| < WORD && d.bytes[b] != 0 && Tick(d).build.Built? && b / BLOCK !in Tick(d).marked
    ensures Spoiled(d, Spoiler(0, b))
  {
    var e := Tick(d);
    ZeroComes(d, b);
    ZeroesSkip(Store(e.bytes, e.marked), b, [0]);
    assert Stored(e, b, [0]).bytes[b] != Splice(d.bytes, b, [0])[b];
  }

  lemma SpoiledOn(d: Disk, wait: nat, b: nat)
    requires 0 < wait && b < |d.bytes| < WORD && Spoiled(Tick(d), Spoiler(wait - 1, b))
    ensures Spoiled(d, Spoiler(wait, b))
  {
    FlushComes(d, wait, b);
    assert Tick(d).build == Ticked(d.build);
  }

  lemma {:induction false} Spoils(d: Disk, b: nat)
    requires b < |d.bytes| < WORD && d.bytes[b] != 0 && d.build.After? && b / BLOCK !in d.marked + BlockSet(d.build.blocks)
    ensures Spoiled(d, Spoiler(d.build.requests, b))
    decreases d.build.requests
  {
    if d.build.requests == 0 {
      ZeroSpoils(d, b);
    } else {
      Spoils(Tick(d), b);
      SpoiledOn(d, d.build.requests, b);
    }
  }

  /** A broken promise has an input that shows it. */
  lemma BrokenPromise(d: Disk) returns (x: seq<byte>)
    requires |d.bytes| < WORD && !Promise(d)
    ensures Spoiled(d, x)
  {
    var marked := d.marked + if d.build.After? then BlockSet(d.build.blocks) else {};
    assert marked == d.marked || d.build.After?;
    var b: nat :| b < |d.bytes| && b / BLOCK !in marked && d.bytes[b] != 0;
    if d.build.After? {
      Spoils(d, b);
      x := Spoiler(d.build.requests, b);
    } else {
      ZeroSpoils(d, b);
      x := Spoiler(0, b);
    }
  }

  /** On all input the program can deal with, the connection goes as with the naive server. */
  ghost predicate Naive(d: Disk) {
    forall x :: Tame(|d.bytes|, d.build, x) ==> Same(d, x)
  }

  lemma SpoiledIsNotSame(d: Disk, x: seq<byte>)
    requires Spoiled(d, x)
    ensures !Naive(d)
  {
    assert Tame(|d.bytes|, d.build, x) && !Same(d, x);
  }

  /** The server is the naive one if and only if the promise holds. */
  lemma NaiveIffPromise(d: Disk)
    requires |d.bytes| < WORD
    ensures Naive(d) <==> Promise(d)
  {
    if Promise(d) {
      forall x | Tame(|d.bytes|, d.build, x) ensures Same(d, x) {
        ServesNaively(d, x);
      }
    } else {
      var x := BrokenPromise(d);
      SpoiledIsNotSame(d, x);
    }
  }

  // ----- a write that breaks off -----

  /**
   What a write of which only `got` arrived leaves: without a map, all of it in the file and no bit
   set; with one, a part of it stored sparsely and a part plainly in marked blocks.
   */
  ghost predicate LeftBehind(d: Disk, from: nat, got: seq<byte>, e: Disk) {
    && from + |got| <= |d.bytes| && e.build == d.build
    && if d.build.Built? then exists posted: nat, stored: nat :: CutSparsely(d, from, got, posted, stored, e)
       else e.bytes == Splice(d.bytes, from, got) && e.marked == d.marked
  }

  ghost predicate CutSparsely(d: Disk, from: nat, got: seq<byte>, posted: nat, stored: nat, e: Disk) {
    && posted <= stored <= |got| && from + |got| <= |d.bytes|
    && var x := SparseStore(Store(d.bytes, d.marked), from, got[..posted]);
       && e.bytes == Splice(x.bytes, from + posted, got[posted..stored]) && e.marked == x.marked
       && forall i :: from + posted <= i < from + stored ==> i / BLOCK in x.marked
  }

  /** With a map the promise survives. */
  lemma SparseCutKeeps(d: Disk, from: nat, got: seq<byte>, e: Disk)
    requires d.build.Built? && Promise(d) && LeftBehind(d, from, got, e)
    ensures Promise(e)
  {
    var posted: nat, stored: nat :| CutSparsely(d, from, got, posted, stored, e);
    SparseIsPlain(Store(d.bytes, d.marked), from, got[..posted]);
  }

  /**
   Without one it survives exactly if every byte left behind that is not zero lies in a block that
   is marked or will be.
   */
  lemma DirectCutIff(d: Disk, from: nat, got: seq<byte>, e: Disk)
    requires d.build.After? && Promise(d) && LeftBehind(d, from, got, e)
    ensures Promise(e) <==>
            forall i :: 0 <= i < |got| && got[i] != 0 ==> (from + i) / BLOCK in d.marked + BlockSet(d.build.blocks)
  {
    if Promise(e) {
      forall i | 0 <= i < |got| && got[i] != 0 ensures (from + i) / BLOCK in d.marked + BlockSet(d.build.blocks) {
        assert e.bytes[from + i] == got[i];
      }
    }
  }

  // ----- one connection after the other -----

  /** How a connection ends does not depend on what the file holds. */
  lemma {:induction false} EndsAlike(d: Disk, bytes: seq<byte>, input: seq<byte>)
    requires |d.bytes| == |bytes|
    ensures Serve(d, input).end == Run(bytes, input).end
    decreases |input|
  {
    if Goes(|d.bytes|, input) {
      var r := DecodeRequest(input[..REQUEST_SIZE]);
      var tail, n := input[REQUEST_SIZE..], PayloadLength(r);
      EndsAlike(Answered(Tick(d), r, tail[..n]), DiskAfter(bytes, r, tail[..n]), tail[n..]);
      ServeGoes(d, input, r);
      RunGoes(bytes, input, r);
    }
  }

  /** A connection on which `input` came turns `d` into `e`. */
  ghost predicate Leaves(d: Disk, input: seq<byte>, e: Disk) {
    var s := Serve(d, input);
    if s.end.CutOff? then LeftBehind(s.disk, s.end.from, s.end.got, e) else e == s.disk
  }

  /**
   It does not break off in a direct write that has stored something other than zero in a block
   neither marked nor to be marked by the builder.
   */
  ghost predicate Harmless(d: Disk, input: seq<byte>) {
    var s := Serve(d, input);
    s.end.CutOff? && s.disk.build.After? ==>
      forall i :: 0 <= i < |s.end.got| && s.end.got[i] != 0 ==>
        (s.end.from + i) / BLOCK in s.disk.marked + BlockSet(s.disk.build.blocks)
  }

  /** Exactly then the next connection finds the promise kept. */
  lemma LeavesIff(d: Disk, input: seq<byte>, e: Disk)
    requires Promise(d) && Leaves(d, input, e)
    ensures Promise(e) <==> Harmless(d, input)
  {
    ServesNaively(d, input);
    var s := Serve(d, input);
    if s.end.CutOff? {
      match s.disk.build
      case Built => SparseCutKeeps(s.disk, s.end.from, s.end.got, e);
      case Never =>
      case After(_, _) => DirectCutIff(s.disk, s.end.from, s.end.got, e);
    }
  }

  /** Connections one after the other turn `d` into `e`, none of them doing harm. */
  ghost predicate Survives(d: Disk, inputs: seq<seq<byte>>, e: Disk)
    decreases |inputs|
  {
    if inputs == [] then e == d
    else Harmless(d, inputs[0]) && exists m :: Leaves(d, inputs[0], m) && Survives(m, inputs[1..], e)
  }

  lemma {:induction false} SurvivesKeeps(d: Disk, inputs: seq<seq<byte>>, e: Disk)
    requires Promise(d) && Survives(d, inputs, e)
    ensures Promise(e)
    decreases |inputs|
  {
    if inputs != [] {
      var m :| Leaves(d, inputs[0], m) && Survives(m, inputs[1..], e);
      LeavesIff(d, inputs[0], m);
      SurvivesKeeps(m, inputs[1..], e);
    }
  }
}
