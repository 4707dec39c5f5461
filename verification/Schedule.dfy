/**
 How the mirror chooses its next transfer (mirror_setup_next_xfer, src/server/mirror.c:351-423):
 the tests and arithmetic of that function, one definition each, shared by the step-by-step
 model of a migration and by the imperative routine.
 */
module Schedule {
  import opened EventStream

  /** mirror_longest_write: 8 << 20. */
  const LONGEST_WRITE: nat := 8388608

  /** `.event = BITSET_STREAM_UNSET`: the entry variable before anything was dequeued. */
  const NO_ENTRY := Entry(Unset, 0, 0)

  /** A stream more than half full during the scan turns draining on. */
  predicate ClearAtStart(offset: nat, size: nat, clear: bool, queued: nat) {
    clear || (offset < size && queued > STREAM_SIZE / 2)
  }

  /** The guard of the dequeue loop. */
  predicate Draining(offset: nat, size: nat, clear: bool, last: Entry) {
    (offset == size || clear) && last.event != Set
  }

  /** A stream found less than a quarter full turns draining off. */
  predicate ClearAfterDequeue(clear: bool, queued: nat) {
    clear && queued >= STREAM_SIZE / 4
  }

  /** The length of the next scan chunk. */
  function ScanLength(offset: nat, size: nat): (run: nat)
    requires offset < size
    ensures 0 < run <= LONGEST_WRITE && offset + run <= size
  {
    if offset + LONGEST_WRITE > size then size - offset else LONGEST_WRITE
  }

  datatype Choice = NoTransfer | Transfer(from: nat, len: nat, offset: nat)

  /** What follows the loop: a change event wins, then the scan, then nothing. */
  function Choose(offset: nat, size: nat, last: Entry): (c: Choice)
  {
    if last.event == Set then Transfer(last.from, last.len, offset)
    else if offset < size then Transfer(offset, ScanLength(offset, size), offset + ScanLength(offset, size))
    else NoTransfer
  }
}
