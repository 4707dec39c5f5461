/**
 The bounded event stream of src/server/bitset.h (244-324): a ring of change events written
 by client threads and drained by the mirror thread.
 */
module EventStream {

  datatype Event = Unset | Set | On | Off

  datatype Entry = Entry(event: Event, from: nat, len: nat)

  /** BITSET_STREAM_SIZE: one mebibyte of 24-byte entries. */
  const STREAM_SIZE: nat := 43690

  /** A change event that names byte `i`. */
  ghost predicate Names(e: Entry, i: nat) {
    e.event == Set && e.from <= i < e.from + e.len
  }

  /** The bytes named by the queued entries of one kind. */
  function QueuedBytes(q: seq<Entry>, event: Event): nat {
    if q == [] then 0
    else (if q[0].event == event then q[0].len else 0) + QueuedBytes(q[1..], event)
  }

  lemma {:induction false} QueuedBytesAppend(q: seq<Entry>, e: Entry, event: Event)
    ensures QueuedBytes(q + [e], event) == QueuedBytes(q, event) + if e.event == event then e.len else 0
  {
    if q == [] {
      assert (q + [e])[1..] == [];
    } else {
      assert (q + [e])[1..] == q[1..] + [e];
      QueuedBytesAppend(q[1..], e, event);
    }
  }

  function Wrap(k: nat): (r: nat)
    requires k < 2 * STREAM_SIZE
    ensures r < STREAM_SIZE
  {
    if k < STREAM_SIZE then k else k - STREAM_SIZE
  }

  /** The `size` slots of the ring that follow `head`, oldest first. */
  ghost function Window(ring: seq<Entry>, head: nat, size: nat): (q: seq<Entry>)
    requires |ring| == STREAM_SIZE && head < STREAM_SIZE && size <= STREAM_SIZE
    ensures |q| == size
  {
    seq(size, i requires 0 <= i < size => ring[Wrap(head + i)])
  }

  lemma WindowPush(ring: seq<Entry>, head: nat, size: nat, e: Entry)
    requires |ring| == STREAM_SIZE && head < STREAM_SIZE && size < STREAM_SIZE
    ensures Window(ring[Wrap(head + size) := e], head, size + 1) == Window(ring, head, size) + [e]
  {
    var r := Window(ring[Wrap(head + size) := e], head, size + 1);
    forall i | 0 <= i < size ensures r[i] == Window(ring, head, size)[i] {
      assert Wrap(head + i) != Wrap(head + size);
    }
  }

  lemma WindowPop(ring: seq<Entry>, head: nat, size: nat)
    requires |ring| == STREAM_SIZE && head < STREAM_SIZE && 0 < size <= STREAM_SIZE
    ensures Window(ring, head, size) == [ring[head]] + Window(ring, Wrap(head + 1), size - 1)
  {
    var q := Window(ring, head, size);
    var r := Window(ring, Wrap(head + 1), size - 1);
    forall i | 0 <= i < size - 1 ensures q[i + 1] == r[i] {
      assert Wrap(head + (i + 1)) == Wrap(Wrap(head + 1) + i);
    }
    assert q[0] == ring[Wrap(head)];
    assert q[1..] == r;
  }

  /** The counters hold, for each kind, the bytes named by the queue. */
  ghost predicate Counts(queued: map<Event, nat>, q: seq<Entry>) {
    forall e: Event :: e in queued && queued[e] == QueuedBytes(q, e)
  }

  lemma CountsEmpty(queued: map<Event, nat>)
    requires queued == map[Unset := 0, Set := 0, On := 0, Off := 0]
    ensures Counts(queued, [])
  {
    forall e: Event ensures e in queued && queued[e] == 0 {
      match e case Unset => case Set => case On => case Off =>
    }
  }

  lemma CountsPush(queued: map<Event, nat>, q: seq<Entry>, e: Entry)
    requires Counts(queued, q)
    ensures e.event in queued && Counts(queued[e.event := queued[e.event] + e.len], q + [e])
  {
    var after := queued[e.event := queued[e.event] + e.len];
    forall ev: Event ensures ev in after && after[ev] == QueuedBytes(q + [e], ev) {
      QueuedBytesAppend(q, e, ev);
    }
  }

  lemma CountsPop(queued: map<Event, nat>, q: seq<Entry>)
    requires Counts(queued, q) && q != []
    ensures q[0].event in queued && queued[q[0].event] >= q[0].len
    ensures Counts(queued[q[0].event := queued[q[0].event] - q[0].len], q[1..])
  {
  }

  class Stream {
    var entries: array<Entry>
    var tail: nat      // `in`, where the next entry is stored
    var head: nat      // `out`, where the oldest entry is found
    var size: nat
    var queued: map<Event, nat>

    /** Every entry ever enqueued, oldest first; the ring holds a suffix of it. */
    ghost var log: seq<Entry>

    ghost function Contents(): (q: seq<Entry>)
      requires size <= STREAM_SIZE && head < STREAM_SIZE && entries.Length == STREAM_SIZE
      reads this, entries
    {
      Window(entries[..], head, size)
    }

    ghost predicate Valid()
      reads this, entries
    {
      && entries.Length == STREAM_SIZE
      && size <= STREAM_SIZE && head < STREAM_SIZE
      && tail == Wrap(head + size)
      && size <= |log| && Contents() == log[|log| - size..]
      && Counts(queued, Contents())
    }

    constructor ()
      ensures Valid() && fresh(entries)
      ensures Contents() == [] && log == []
    {
      entries := new Entry[STREAM_SIZE](_ => Entry(Unset, 0, 0));
      tail, head, size := 0, 0, 0;
      queued := map[Unset := 0, Set := 0, On := 0, Off := 0];
      log := [];
      new;
      assert Contents() == [];
      CountsEmpty(queued);
    }

    /** bitset_stream_enqueue once the ring has room. */
    method Push(event: Event, from: nat, len: nat)
      requires Valid() && size < STREAM_SIZE
      modifies this, entries
      ensures Valid() && entries == old(entries)
      ensures Contents() == old(Contents()) + [Entry(event, from, len)]
      ensures log == old(log) + [Entry(event, from, len)]
    {
      ghost var q := Contents();
      var e := Entry(event, from, len);
      WindowPush(entries[..], head, size, e);
      entries[tail] := e;
      queued := queued[event := queued[event] + len];
      size := size + 1;
      tail := (tail + 1) % STREAM_SIZE;
      log := log + [e];
      assert entries[..] == old(entries[..])[old(tail) := e];
      assert Contents() == q + [e];
      CountsPush(old(queued), q, e);
    }

    /** bitset_stream_dequeue once the ring is not empty. */
    method Pop() returns (e: Entry)
      requires Valid() && size > 0
      modifies this
      ensures Valid() && entries == old(entries)
      ensures [e] + Contents() == old(Contents())
      ensures log == old(log)
    {
      ghost var q := Contents();
      WindowPop(entries[..], head, size);
      e := entries[head];
      CountsPop(queued, q);
      queued := queued[e.event := queued[e.event] - e.len];
      size := size - 1;
      head := (head + 1) % STREAM_SIZE;
      assert Contents() == q[1..];
    }

    /**
     bitset_stream_enqueue.  Waiting for `cond_not_full` means waiting for the mirror thread
     to dequeue, so each turn of the wait loop is one entry removed at the other end.
     */
    method Enqueue(event: Event, from: nat, len: nat)
      requires Valid()
      modifies this, entries
      ensures Valid() && entries == old(entries)
      ensures log == old(log) + [Entry(event, from, len)]
      ensures old(size) < STREAM_SIZE ==> Contents() == old(Contents()) + [Entry(event, from, len)]
    {
      while size == STREAM_SIZE
        invariant Valid() && entries == old(entries) && log == old(log)
        invariant old(size) < STREAM_SIZE ==> Contents() == old(Contents())
        decreases size
      {
        var _ := Pop();
      }
      Push(event, from, len);
    }

    /** bitset_stream_queued_bytes. */
    method Queued(event: Event) returns (total: nat)
      requires Valid()
      ensures total == QueuedBytes(Contents(), event)
    {
      total := queued[event];
    }
  }

  // ----- the ring as a bounded queue, over whole runs -----

  datatype Op = Put(e: Entry) | Take

  /** No dequeue of the run finds the queue empty and no enqueue finds it full. */
  ghost predicate Fits(q: seq<Entry>, ops: seq<Op>)
    decreases |ops|
  {
    ops == [] ||
    match ops[0]
    case Put(e) => |q| < STREAM_SIZE && Fits(q + [e], ops[1..])
    case Take => q != [] && Fits(q[1..], ops[1..])
  }

  function Puts(ops: seq<Op>): seq<Entry> {
    if ops == [] then [] else (if ops[0].Put? then [ops[0].e] else []) + Puts(ops[1..])
  }

  /** What a plain queue hands out over a run, and what it holds afterwards. */
  ghost function Play(q: seq<Entry>, ops: seq<Op>): (r: (seq<Entry>, seq<Entry>))
    requires Fits(q, ops)
    decreases |ops|
  {
    if ops == [] then ([], q)
    else match ops[0]
      case Put(e) => Play(q + [e], ops[1..])
      case Take => var (taken, rest) := Play(q[1..], ops[1..]); ([q[0]] + taken, rest)
  }

  /** Nothing is lost, duplicated or reordered. */
  lemma {:induction false} PlayConserves(q: seq<Entry>, ops: seq<Op>)
    requires Fits(q, ops)
    ensures Play(q, ops).0 + Play(q, ops).1 == q + Puts(ops)
    decreases |ops|
  {
    if ops != [] {
      match ops[0]
      case Put(e) =>
        PlayConserves(q + [e], ops[1..]);
        assert (q + [e]) + Puts(ops[1..]) == q + Puts(ops);
      case Take =>
        PlayConserves(q[1..], ops[1..]);
        var (taken, rest) := Play(q[1..], ops[1..]);
        assert ([q[0]] + taken) + rest == [q[0]] + (taken + rest);
        assert [q[0]] + (q[1..] + Puts(ops[1..])) == q + Puts(ops[1..]);
    }
  }

  /** Any interleaving of enqueues and dequeues, run on the ring, does what the plain queue does. */
  method RunOps(s: Stream, ops: seq<Op>) returns (taken: seq<Entry>)
    requires s.Valid() && Fits(s.Contents(), ops)
    modifies s, s.entries
    ensures s.Valid() && s.entries == old(s.entries)
    ensures (taken, s.Contents()) == Play(old(s.Contents()), ops)
    decreases |ops|
  {
    taken := [];
    if ops != [] {
      ghost var q := s.Contents();
      match ops[0] {
        case Put(e) =>
          s.Push(e.event, e.from, e.len);
          taken := RunOps(s, ops[1..]);
        case Take =>
          var e := s.Pop();
          assert s.Contents() == q[1..];
          taken := RunOps(s, ops[1..]);
          taken := [e] + taken;
      }
    }
  }
}
