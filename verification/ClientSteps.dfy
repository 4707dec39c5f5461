/**
 The client steps of a migration are what write_not_zeroes does: every piece it stores and
 announces, and the piece it breaks off in, is a run of those steps.
 */
module ClientSteps {
  import opened Bytes
  import opened EventStream
  import opened MigrationSteps
  import opened SparseWrite

  /** A request's length has 32 bits. */
  const LIMIT: nat := 0x1_0000_0000

  /** What a write looks like to the migration: bytes and ring change, client `c` is idle again. */
  function Written(s: State, bytes: seq<byte>, posted: seq<Entry>): State {
    s.(src := bytes, ring := s.ring + posted)
  }

  ghost predicate IdleClient(s: State, c: nat) {
    c in s.clients && s.clients[c].Idle?
  }

  /** Client `c` has stored `data` at `at`, of a piece of `n` bytes. */
  function MidPiece(s: State, c: nat, at: nat, n: nat, data: seq<byte>): State
    requires at + |data| <= |s.src|
  {
    s.(src := Splice(s.src, at, data), clients := s.clients[c := Storing(at, at + n, at + |data|)])
  }

  lemma StoresPiece(o: State, s: State, c: nat, at: nat, n: nat, data: seq<byte>)
    requires Reaches(o, s, false) && IdleClient(s, c) && 0 < n && |data| <= n < LIMIT && at + n <= s.size == |s.src|
    ensures Reaches(o, MidPiece(s, c, at, n, data), false)
  {
    var s1 := Apply(s, BeginPiece(c, at, at + n));
    Onward(o, s, BeginPiece(c, at, at + n), s1, false);
    var t := MidPiece(s, c, at, n, data);
    assert s.clients[c := Storing(at, at + n, at)][c := Storing(at, at + n, at + |data|)] == t.clients;
    Onward(o, s1, StoreBytes(c, data), t, false);
  }

  /** A piece stored in full and announced. */
  lemma PostsPiece(o: State, s: State, c: nat, at: nat, n: nat, data: seq<byte>)
    requires Reaches(o, s, false) && IdleClient(s, c) && 0 < n == |data| < LIMIT && at + n <= s.size == |s.src|
    requires s.streaming ==> |s.ring| < STREAM_SIZE
    ensures Reaches(o, Written(s, Splice(s.src, at, data), if s.streaming then [Entry(Set, at, n)] else []), false)
  {
    StoresPiece(o, s, c, at, n, data);
    var m := MidPiece(s, c, at, n, data);
    var t := Written(s, Splice(s.src, at, data), if s.streaming then [Entry(Set, at, n)] else []);
    assert m.clients[c := Idle] == s.clients;
    assert s.ring + [] == s.ring;
    Onward(o, m, PostEvent(c), t, false);
  }

  /** Client `c` broke off with `data` stored at `at` and nothing announced. */
  function Torn(s: State, c: nat, at: nat, data: seq<byte>): State
    requires at + |data| <= |s.src|
  {
    s.(src := Splice(s.src, at, data), clients := s.clients - {c}, torn := s.torn + Interval(at, at + |data|))
  }

  /** A piece that breaks off. */
  lemma TearsPiece(o: State, s: State, c: nat, at: nat, n: nat, data: seq<byte>)
    requires Reaches(o, s, false) && IdleClient(s, c) && |data| < n < LIMIT && at + n <= s.size == |s.src|
    ensures Reaches(o, Torn(s, c, at, data), false)
  {
    StoresPiece(o, s, c, at, n, data);
    var m := MidPiece(s, c, at, n, data);
    assert m.clients - {c} == s.clients - {c};
    Onward(o, m, Abort(c), Torn(s, c, at, data), false);
  }

  /** One more piece of a write, after those that led from `o` to `s`. */
  lemma PieceIsSteps(o: State, s: State, c: nat, x: Snap, y: Snap, at: nat, n: nat)
    requires Reaches(o, s, false) && IdleClient(s, c) && s.src == x.bytes && |s.src| == s.size
    requires SparseWrite.Piece(x, y, at, n, s.streaming) && n < LIMIT && |s.ring| + (|y.log| - |x.log|) <= STREAM_SIZE
    ensures x.log <= y.log && Reaches(o, Written(s, y.bytes, y.log[|x.log|..]), false)
  {
    var data := x.inc[..n];
    if y.log == (if s.streaming then x.log + [Entry(Set, at, n)] else x.log) {
      PostsPiece(o, s, c, at, n, data);
      assert y.log[|x.log|..] == if s.streaming then [Entry(Set, at, n)] else [];
    } else {
      assert y.log[|x.log|..] == [];
      assert s.ring + [] == s.ring;
      assert Written(s, y.bytes, []) == s;
    }
  }

  lemma WrittenTwice(s: State, a: seq<byte>, b: seq<byte>, log: seq<Entry>, log': seq<Entry>, root: nat)
    requires root <= |log| && log <= log'
    ensures Written(Written(s, a, log[root..]), b, log'[|log|..]) == Written(s, b, log'[root..])
  {
    assert log[root..] + log'[|log|..] == log'[root..];
    assert (s.ring + log[root..]) + log'[|log|..] == s.ring + (log[root..] + log'[|log|..]);
  }

  /** A run of client steps makes the image `x.bytes` and adds to the ring what the log grew by. */
  ghost predicate GetsTo(s: State, x: Snap, root: nat) {
    root <= |x.log| && Reaches(s, Written(s, x.bytes, x.log[root..]), false)
  }

  lemma OnePieceMore(s: State, c: nat, x: Snap, y: Snap, at: nat, n: nat, root: nat)
    requires IdleClient(s, c) && |x.bytes| == s.size && GetsTo(s, x, root)
    requires SparseWrite.Piece(x, y, at, n, s.streaming) && n < LIMIT && |s.ring| + (|y.log| - root) <= STREAM_SIZE
    ensures GetsTo(s, y, root)
  {
    PieceIsSteps(s, Written(s, x.bytes, x.log[root..]), c, x, y, at, n);
    WrittenTwice(s, x.bytes, y.bytes, x.log, y.log, root);
  }

  lemma TrailShape(t: Trail, from: nat, streaming: bool)
    requires IsTrail(t, from, streaming)
    ensures Root(t).log <= t.s.log && |t.s.bytes| == |Root(t).bytes|
  {
    TrailEvents(t, from, streaming);
    TrailBytes(t, from, streaming);
  }

  lemma NoStep(s: State, x: Snap)
    requires x.bytes == s.src
    ensures GetsTo(s, x, |x.log|)
  {
    Stays(s, false);
    assert x.log[|x.log|..] == [];
    assert s.ring + [] == s.ring;
  }

  /**
   Left undisturbed, the pieces of write_not_zeroes are a run of client steps: the image ends as
   written, and the ring has grown by the events posted, in order.
   */
  lemma {:induction false} TrailIsSteps(t: Trail, from: nat, s: State, c: nat)
    requires IsTrail(t, from, s.streaming) && t.done < LIMIT && IdleClient(s, c) && s.src == Root(t).bytes && |s.src| == s.size
    requires |s.ring| + (|t.s.log| - |Root(t).log|) <= STREAM_SIZE
    ensures GetsTo(s, t.s, |Root(t).log|)
  {
    TrailShape(t, from, s.streaming);
    match t
    case Start(_, _) =>
      NoStep(s, t.s);
    case Then(before, n, _, _) =>
      TrailShape(before, from, s.streaming);
      TrailIsSteps(before, from, s, c);
      OnePieceMore(s, c, before.s, t.s, from + before.done, n, |Root(t).log|);
  }

  /** A write that breaks off in an allocated run of `n` bytes is such a run ending in an abort. */
  lemma TornWriteIsSteps(t: Trail, from: nat, s: State, c: nat, n: nat)
    requires IsTrail(t, from, s.streaming) && t.done < LIMIT && IdleClient(s, c) && s.src == Root(t).bytes && |s.src| == s.size
    requires |s.ring| + (|t.s.log| - |Root(t).log|) <= STREAM_SIZE
    requires |t.s.inc| < n < LIMIT && from + t.done + n <= s.size
    ensures |t.s.bytes| == s.size && Root(t).log <= t.s.log
    ensures Reaches(s, Torn(Written(s, t.s.bytes, t.s.log[|Root(t).log|..]), c, from + t.done, t.s.inc), false)
  {
    TrailShape(t, from, s.streaming);
    TrailIsSteps(t, from, s, c);
    TearsAfter(s, t.s, |Root(t).log|, c, from + t.done, n);
  }

  /** After the run of steps that led to `x`, the next piece breaks off. */
  lemma TearsAfter(s: State, x: Snap, root: nat, c: nat, at: nat, n: nat)
    requires GetsTo(s, x, root) && IdleClient(s, c) && |x.bytes| == s.size && |x.inc| < n < LIMIT && at + n <= s.size
    ensures Reaches(s, Torn(Written(s, x.bytes, x.log[root..]), c, at, x.inc), false)
  {
    TearsPiece(s, Written(s, x.bytes, x.log[root..]), c, at, n, x.inc);
  }
}
