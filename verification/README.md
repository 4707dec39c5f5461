# flexnbd, verified

flexnbd serves a disk image over the NBD protocol, can move a live image to another host, and
comes with a proxy that keeps a client going while its upstream server drops connections.  This
project models the three parts that carry its promises and proves those promises for every
input, every interleaving and every run.

**Live migration.**  `MigrationSteps` is the system of interleaved steps: clients that store
bytes first and post a change event second, the mirror thread that scans, transfers, drains,
closes clients and hands over, the destination that applies and acknowledges.  `Migration` holds
the inductive invariant (each byte agrees, or is torn, still ahead of the scan, unsent, queued,
in hand, or stored by a client that has not reached its enqueue) and the safety theorems; `Listener`
what a listener makes of a mirror's bytes, and `Handover` that a migration's bytes are such bytes,
down to the listener's own code taking control; `SecondAttempt` what becomes of that on a listener
that was connected to before; `Drain` the scheduling and convergence theorems; `Doors` what an attempt
turns on and off again, over every run;
`TornWrite` which bytes a torn write can leave different; `ClientSteps` the proof that the sparse
write below is a run of the client steps; `Accounting` the bytes remaining; `Pacing` and `Overrun` the
bandwidth limit and exactly when it binds.  `Mirror` is the imperative side of
`src/server/mirror.c`, proved to be a run of those steps; `Schedule` holds the tests and
arithmetic both share.

**Sparse storage.**  `BitField` (64-bit words), `EventStream` (the ring), `Bitset` (both
together).  `SparseStore` says what writing around zero blocks does to a file and its map, whatever
the map says, and `SparseWrite` is `write_not_zeroes`, proved to do that.  `MapServer` is a whole
connection over such a file, with the map built, never built or finished in the middle, measured
against `NaiveDisk`, the simplest server there is; `Session` is the code of a client connection,
proved to be `MapServer`.  `MapLife` is the life of a server's map as interleaved steps of the
builder, any number of writing clients and connections that break off; `AllocationMap` (FIEMAP) is
that builder.  `Acl` and `Serve` are the access list and the client table.

**The proxy.**  `ProxyCode` has the functions of `src/proxy/proxy.c` on values, `Proxier` the class
that updates `struct proxier` in place and is proved equal to them, `ProxySystem` the proxy between
a client and a server as interleaved steps with any drops, time-outs and partial transfers.
`ProxySafety`, `ProxyUpstream` and `ProxyRefinement` hold the invariant and the refinement of one
reliable disk; `ProxyTurns` what each turn of the loop comes to, from any state and in plain numbers; `ProxyProgress` resending, the cache and the buffers; `ProxyAnswers` which requests
can be answered at all.  `Wire` has the wire formats (sections "Oldstyle negotiation", "Request
message" and "Simple reply message" of the NBD protocol document), `Bytes` what all share.

## Reading the theorems

- A run is a sequence of steps with `CanRun`: each is enabled when its turn comes.  `Exec` is the
  state it leads to.  Theorems about runs quantify over all of them.
- A client whose socket fails mid-payload has changed mapped bytes and never posts an event.
  Those bytes are the set `torn`, emptied when an attempt starts.  `Migration.ExactMigration` shows
  that without such a client the copy is exact, `TornWrite.TornByteIff` that with one any byte but
  the last can differ.
- Testing `allow_new_clients` and starting the client thread is one step, joins succeed in the step
  system (`Serve.Server.ShutDoor` says what happens when one does not), and posting an event is
  enabled only while the ring has room.  `EventStream.Stream.Enqueue` models waiting on a full ring
  as the mirror taking entries off.  No claim is made that the mirror and a waiting client cannot
  block each other.
- `write_not_zeroes` relies on a promise: a clear bit means a block of zeroes
  (`SparseStores.SparseImage`).  The code can break it.  A write that finds `allocation_map_built` unset
  goes straight to the file and is marked only when all of it has come; if it is cut off in a
  block the builder has already passed, its bytes stay behind a clear bit, and once the flag is set a
  write of zeroes to them is answered and not stored.  `MapLife.CanBreakIff` has that run for every
  byte of a file but the last, `MapLife.ZeroWriteLost` the lost write.  With the map built all along
  two clients can do the same (`MapLife.RaceBreaks`), because `bitset_run_count` and
  `bitset_is_set_at` are two reads.  `MapLife.SparseIff` says exactly when the promise holds: once the
  map is built and nobody is in the middle of storing, iff every byte left by a write that broke off
  is zero or lies in a marked block; so always, if no connection breaks off
  (`MapLife.KeptWithoutCuts`).
- Nothing about the code assumes the promise: `SparseWrite`, `Session` and `MapServer.Serve` say what
  happens with it and without.  `MapServer.NaiveIffPromise` says that a server is the naive one iff it
  holds, `MapServer.LeavesIff` which connections leave it intact.
- In `MigrationSteps` the destination stores plainly what it is sent.  That a listener does so is
  part of the handover theorems, and depends on its map: `Handover.ListenerHandover`,
  `Handover.HandoverAfter` and `Handover.Listen` say of a listener, one with earlier connections and
  broken-off attempts included, that it holds an agreeing copy if its promise held when the attempt
  began; `SecondAttempt.HandoverIff` that once its map is built this is exact; and
  `SecondAttempt.SpoiltRestart` gives a first attempt cut off while the map is being built, after
  which a second one hands over a copy with a byte different that nobody tore.
- In `MapServer` and `Session` the builder marks its last blocks and sets the flag between two
  requests; in `MapLife` its questions, marks and flag come anywhere between the clients' steps.  What
  has no storage at the moment the file system is asked reads as zeroes at that moment
  (`AllocationMap.HolesAreZero`).
- `MapServer.Tame` is the input on which a session is compared with `MapServer.Serve`, request by
  request: the 64-bit range test is right (`MapServer.RefusesIff`), a payload to be thrown away comes in
  full (`Sessions.FlushEndsIff`: otherwise the program loops for ever), and a server without an
  allocation map gets no empty write at offset 0 (`Bitsets.SpanOfNothing`: it would count 2^52
  blocks).  Everything a flexnbd mirror sends is tame, which `Listener.Gains` includes.
- The bit field is a whole number of 64-bit words.
- A new attempt is a new mirror command: the mapping is there when it starts.
- In the proxy system a read that is reported ready yields at least one byte, end of file or an
  error; the client sends the right magic and ranges that do not wrap (`ProxyCode.ContainsIff` and
  `ProxyProgress.CacheCoherence` say what a wrapping range and a wrong magic do); the cache is at most
  half of NBD_MAX_SIZE (`ProxyProgress.SafeCacheSizes` shows this is needed on a large disk); the
  proxy is the only writer, and a connection it has closed applies nothing more.
- `select()` does not fail with anything but EINTR while the proxy is in an upstream state.  It leaves
  the loop from whatever state it is in: from the two downstream states that is the end of a session
  like any other (`ProxyRefinement.SelectFailsDown`), from an upstream state the next session begins
  with a request in flight, and its client can be given the old reply.
- Where code and its comment differ the code is modelled.  The comment on `proxy_session` speaks of
  30 seconds, the code of a configured time-out: the model lets a time-out happen in any upstream
  state.  `server_control_arrived` speaks of a DISCONNECT, but a bad magic also
  raises `disconnect`; `Sessions.Client.Serve` states both, and the handover theorems are about a
  flexnbd sender.

## Model

| member | source | states |
|---|---|---|
| Migration.MigrationSafety | src/server/mirror.c:442-624 | in every interleaving, an attempt that completes leaves source and a destination that stores what it is sent equal at every byte outside the torn set, with every client joined and new ones refused; when a listener is such a destination is the subject of Handover and SecondAttempt |
| Migration.StepKeepsInv | src/server/mirror.c:351-646 | each of the 21 kinds of step keeps the invariant that every byte agrees, is torn, or is still to be sent for a named reason |
| Migration.RunKeepsInv | src/server/mirror.c:739-856 | every run keeps it; what a run turns on and off beside the bytes is in Doors |
| Doors.DoorSafety | src/server/mirror.c:601-627 | over every run, new clients are refused exactly from the decision to close the clients until the attempt fails, the listening socket is closed exactly at the end of a successful attempt, changes are streamed exactly while one runs, and changes go before the scan only with about a quarter of the ring filled or more |
| Doors.AcceptIff | src/server/serve.c:414-468 | in every reachable state a new client is let in iff the clients are not being closed and have not been |
| Doors.FailureReopens | src/server/mirror.c:839-842 | an attempt can fail whenever it talks to the destination, and every new client is let in again from that step on |
| Doors.AtRestNobodyWaits | src/server/mirror.c:844-852 | between attempts every new client is let in and no client waits for room in the ring or adds to it |
| Doors.StepFlag | src/server/mirror.c:364-387 | the flag that puts changes first goes on only at a setup during the scan with more than 21845 entries queued, goes off only when an entry is taken with fewer than 10922 queued or a new attempt starts, and implies at least 10921 entries |
| Doors.StepRing | src/server/bitset.h:326-357 | the ring grows by one change per piece while streamed and by the marks of going on and off, and shrinks by its oldest entry at a dequeue; no other step touches it |
| Doors.DecideIff | src/server/mirror.c:605-624 | after a setup the clients are closed iff they are not yet and the end is near or nothing is left to send; the next transfer goes, or the handover begins, exactly in the remaining cases |
| Doors.AnyPieces | src/server/mirror.c:442-501 | clients store, the mirror sends, the destination applies and answers in pieces of any size, and a client can break off anywhere before the last byte |
| Migration.StoreKeeps | src/server/client.c:158-193 | a client's store into any part of the image, at any moment of a transfer, keeps it |
| Migration.PostKeeps | src/server/bitset.h:345-357 | posting the event keeps it: bytes a client had stored are now queued |
| Migration.AbortKeeps | src/server/client.c:161-167 | a client that breaks off keeps it: what it had stored is now torn |
| Migration.WriteKeeps | src/server/mirror.c:442-501 | sending bytes as they are at that moment keeps it, although clients write on |
| Migration.ExactMigration | src/server/client.c:453-470 | an attempt during which no client broke off ends with equal images |
| TornWrite.TornByteCanDiffer | src/server/client.c:161-167 | for every image, every listener and every byte but the last there is a run to the handover after which that byte, and only it, is torn and differs |
| TornWrite.TornByteIff | src/server/client.c:161-167 | a byte of an image of any size can differ at the handover if and only if it is not the last one |
| Migration.HandoverSafety | src/server/mirror.c:213-240 | once DISCONNECT is sent, every client is joined, the listening socket is closed, nobody new gets in and the copies agree outside the torn set |
| Handover.RunHeard | src/server/mirror.c:404-501 | over every run, the bytes an attempt has put on the wire are the acknowledged transfers and a part of the next, and the destination holds exactly what of them was applied |
| Handover.ListenerHandover | src/server/client.c:711-718 | in every run, a listener with any file and map, fed any prefix of what was sent, gains control iff the source is done and all of it arrived; and if its promise (clear bit means zero block) held when the attempt began, then the source is closed, has no clients and takes none, and the listener's file, by way of write_not_zeroes or not, agrees outside the torn set |
| Handover.Listen | src/server/client.c:685-726 | the same of the listener's own code on its mapped file and map, whatever the map says, with server_control_arrived taken once and a close signalled; and what the connection leaves if it breaks off |
| Handover.HandoverAfter | src/server/client.c:453-471 | a listener that was connected to any number of times before is handed an agreeing copy, if its promise held at first and no connection since was cut off in a direct write leaving something other than zero in a block neither marked nor to be marked |
| SecondAttempt.HandoverIff | src/server/client.c:187-200 | with the map built, every migration to a listener hands over an agreeing copy iff its promise holds |
| SecondAttempt.SpoiltRestart | src/server/client.c:453-471 | for every byte but the last of an empty file: a first attempt cut off during the build, then an undisturbed attempt, with nothing torn, that hands over that byte different |
| Migration.MigratedForGood | src/server/mirror.c:426-440 | after completion no step changes either image, and there is no way back |
| Migration.RestartSafety | src/server/mirror.c:159-169 | from any destination contents, stale ring entries and half-done client writes, a new attempt re-establishes the invariant, with the stream on before the first byte is sent; the destination stores what it is sent, and Handover.HandoverAfter says when a listener with earlier connections does |
| Drain.SchedulingSafety | src/server/mirror.c:356-403 | offset never passes size, every transfer is in range, the scan chunks are not empty, at most 8 MiB, and cut the image in order without gaps; setup finds nothing to send only at the end of the image, and with clients closed only with the ring empty |
| Drain.DrainBound | src/server/mirror.c:601-624 | after clients are closed, the number of transfers set up plus what remains never exceeds what remained |
| Drain.EveryStepCloser | src/server/mirror.c:601-624 | once the clients are closed, every step by anyone that moves at least one byte and is not a failure gets strictly closer to the handover |
| Drain.SomebodyKeepsGoing | src/server/mirror.c:601-624 | until the handover there always is such a step |
| Drain.Converges | src/server/mirror.c:601-624 | whoever moves next at each turn, the handover is reached unless a step fails |
| Mirror.DrainLoopSkips | src/server/mirror.c:372-387 | the dequeue loop takes entries up to the first change and none past it, during the scan only while it finds the ring at least a quarter full, and stops nowhere else; the flag is off afterwards iff it was off or the last entry was taken from a ring less than a quarter full |
| Mirror.SetupIff | src/server/mirror.c:364-403 | with the flag off and the ring at most half full the scan goes on by min(8 MiB, rest) and nothing is taken; otherwise the oldest change goes, and the scan only if no change was taken |
| Mirror.DrainingEnds | src/server/mirror.c:364-387 | with nobody posting, the flag is off after as many setups as there are entries above a quarter of the ring, and one more, and stays off |
| Mirror.Ctrl.DrainEvents | src/server/mirror.c:372-387 | the loop over the real ring leaves the flag, entry and ring that the function says |
| Mirror.Ctrl.SetupNextXfer | src/server/mirror.c:351-423 | flag, ring, offset, range and encoded header after the whole routine |
| Mirror.SetupIsSteps | src/server/mirror.c:351-423 | the routine, left undisturbed, is a run of the atomic steps of the migration |
| Mirror.Ctrl.WriteCb | src/server/mirror.c:442-501 | the bytes handed to the socket are the next ones of header and mapping; done exactly after the last |
| Mirror.WriteCbIsStep | src/server/mirror.c:467-494 | that is the migration's write step, wherever in the transfer it happens |
| Mirror.Ctrl.ReadCb | src/server/mirror.c:503-581 | goes on if and only if the reply is complete with the right magic, no error and the mirror's handle |
| Mirror.GoodReplyIff | src/server/mirror.c:556-575 | those checks accept exactly the reply of a server that carried the transfer out |
| Accounting.RemainingIsExact | src/server/serve.c:890-904 | over every run, bytes remaining plus bytes scheduled equals bytes owed plus bytes posted or begun again; never negative |
| Accounting.NothingRemainsIff | src/server/serve.c:890-904 | bytes remaining is 0 iff the scan is at the end of the image and no queued change names a byte |
| Pacing.RateLimit | src/server/mirror.c:332-341 | with a constant limit and a ring at most half full at each check of an attempt, the bytes accounted stay below (limit + 1) * (seconds + 1) plus the longest transfer, over every timed run of a migration |
| Pacing.CheckedIff | src/server/mirror.c:332-341 | a check holds the mirror back iff at most 21845 entries are queued and the bytes accounted reach (limit + 1) * (seconds + 1) |
| Pacing.MovedPace | src/server/mirror.c:583-643 | over a timed run: a complete reply accounts for its transfer unless changes go first, only the moments before the next transfer and the timer check, and a new attempt starts from nothing |
| Pacing.LetGoInTheEnd | src/server/mirror.c:680-704 | from every reachable state in which the mirror is held back, some wait and one firing of the timer let it send |
| Pacing.ClosesByEstimate | src/server/mirror.c:605-608 | where the estimate is followed, clients are closed iff fewer than 5 seconds remain at (rate + 1) bytes a second |
| Overrun.LimitOverrun | src/server/mirror.c:337-340 | for every limit a migration with one entry more than half a ring at its checks overruns it; below 32 GiB a second even with every decision to close clients as the estimate has it |
| Overrun.LimitBindsIff | src/server/mirror.c:332-341 | all runs with at most q entries at each check keep within the limit if and only if q is at most half the ring |
| Pacing.Pacer.Count | src/server/mirror.c:583-588 | the accounting after a transfer is the one the timed runs use |
| Pacing.Pacer.CheckLimit | src/server/mirror.c:680-704 | the check after a transfer and by the timer is the one the timed runs use |
| BitField.FillRange | src/server/bitset.h:69-105 | exactly the bits in the range take the value and no other bit changes, across head, memset and overlapping tail |
| BitField.RunCount | src/server/bitset.h:112-146 | the count is the longest constant prefix, for every alignment and length |
| EventStream.Stream.Push | src/server/bitset.h:244-269 | the ring's contents grow by the entry at the end; the per-kind byte counts stay the sums |
| EventStream.Stream.Pop | src/server/bitset.h:271-300 | the oldest entry comes out, the rest stays in order; the counts never go negative |
| EventStream.Stream.Enqueue | src/server/bitset.h:244-269 | the entry is appended to the history even if room had to be waited for |
| EventStream.Stream.Queued | src/server/bitset.h:313-324 | the count reported is the sum over the queue |
| EventStream.RunOps | src/server/bitset.h:244-300 | any interleaving of enqueues and dequeues on the ring does what a plain queue does |
| EventStream.PlayConserves | src/server/bitset.h:244-300 | what came out followed by what is left is what was there followed by what went in |
| Bitsets.Alloc | src/server/bitset.h:198-220 | no block is marked, every block of the file has a bit, the stream is empty and off |
| Bitsets.Bitset.SetRange | src/server/bitset.h:345-357 | the marked blocks grow by exactly the blocks first to last of INT_FIRST_AND_LAST, empty ranges past offset 0 included, and one event is posted iff the stream is on |
| Bitsets.SpanOfBlocks | src/server/bitset.h:232-235 | for a range that is not empty the 64-bit block count is the number of blocks it touches |
| Bitsets.SpanOfNothing | src/server/bitset.h:232-235 | for an empty range the 64-bit block count is 0 iff it lies at a block boundary past offset 0, 1 inside a block, and (2^64 - 1) / resolution + 1 at offset 0 |
| Bitsets.Bitset.RunCountEx | src/server/bitset.h:393-415 | at least 1; every byte of the clipped run shares the bit of the first, and the byte after a shorter run does not |
| Bitsets.Bitset.EnableStream | src/server/bitset.h:326-332 | the stream is on and the ON entry is in the history |
| Bitsets.Bitset.DisableStream | src/server/bitset.h:334-340 | the stream is off and the OFF entry is in the history |
| Bitsets.Bitset.IsSetAt | src/server/bitset.h:435-438 | the word-level test agrees with the plain set of block numbers |
| SparseWrite.Socket.ReadLoop | src/common/ioutil.c:144-165 | whatever the partial reads, the result is the next bytes in order, all of them unless the peer stops |
| SparseWrite.Socket.WriteLoop | src/common/ioutil.c:128-142 | whatever the partial writes, all bytes are sent once, in order |
| SparseWrite.LooksZeroIff | src/server/client.c:187-189 | comparing a buffer with itself shifted by one detects exactly the all-zero buffers |
| SparseWrite.Image.WriteNotZeroes | src/server/client.c:105-212 | whatever the map says: file and map end as the block-by-block store has them, exactly len bytes are consumed, every changed byte is named in an event, and whoever reads the bytes of an event at the moment it is posted has the file as it is then; when the peer stops early, says which bytes are stored and which of them have no event |
| SparseWrite.Image.WriteRuns | src/server/client.c:113-211 | the two nested loops leave a chain of pieces, cut at block boundaries, from the state before the write, complete or broken off in a known way |
| ClientSteps.TrailIsSteps | src/server/client.c:158-193 | left undisturbed, that chain is a run of the migration's client steps: same image, same events in the ring |
| ClientSteps.TornWriteIsSteps | src/server/client.c:161-167 | a chain that breaks off in an allocated run is such a run ending in an abort that tears exactly the bytes stored |
| SparseWrite.TrailWrote | src/server/client.c:137-208 | a chain of pieces, each stored then announced or unchanged, is one block-by-block store of the whole with every change announced, after it was stored |
| SparseStores.SparseIsPlain | src/server/client.c:187-200 | while a clear bit means a zero block, storing around zero blocks is a plain copy and keeps it so |
| SparseStores.PromiseIff | src/server/client.c:187-200 | every write is a plain copy iff a clear bit means a zero block |
| MapLife.StepKeeps | src/server/client.c:105-212 | each step of builder, clients and broken connections keeps the invariant that every byte other than zero is marked, being stored, left by a cut-off write or still to be seen by the builder, and every unannounced change is being stored or was cut off |
| MapLife.SparseIff | src/server/serve.c:676-708 | over every interleaving from a server's start: once the map is built and nobody is storing, a clear bit means a zero block iff every byte left by a write that broke off is zero or lies in a marked block |
| MapLife.KeptWithoutCuts | src/server/client.c:453-471 | so always, for any number of clients, if no connection breaks off |
| MapLife.EveryChangeAnnounced | src/server/client.c:158-193 | over every interleaving of any number of clients, while changes are streamed, every byte stored and not yet named by an event is still being stored or was left by a write that broke off |
| MapLife.CanBreakIff | src/server/client.c:453-471 | a server started on some file of a given size can come to have the map built, nobody storing and a given byte other than zero behind a clear bit iff that byte is not the last |
| MapLife.ZeroWriteLost | src/server/client.c:187-200 | in such a state a zero written to that byte runs through and changes nothing |
| MapLife.RaceBreaks | src/server/client.c:122-167 | with the map built, from any quiet state with two neighbouring clear blocks, two clients and one broken connection lead to such a state |
| MapLife.Undisturbed | src/server/client.c:105-212 | a write through these steps that nobody disturbs ends with the file and map of the block-by-block store |
| AllocationMap.NothingSkipped | src/common/ioutil.c:56-66 | however a reply was cut off, the scan moves on and passes over no extent |
| AllocationMap.BuildAllocationMap | src/common/ioutil.c:16-71 | terminates, with clients marking blocks meanwhile; on success every block of the file's extents is marked, and never anything but those and the clients' |
| AllocationMap.KeepsToFieldIff | src/common/ioutil.c:49-66 | the scan keeps to the bit field iff every extent that begins inside the file does |
| AllocationMap.TurnIsAsk | src/common/ioutil.c:32-66 | whatever extents the file has at the moment of an ioctl, the reply and next offset are a step of the builder in MapLife: every byte of the window that is not zero then lies in a block of the reply, and each extent can be marked |
| MapServer.RefusesIff | src/server/client.c:388-388 | the wrapping 64-bit range test refuses exactly the out-of-range requests iff the sum does not wrap to something in range |
| MapServer.ServesNaively | src/server/client.c:453-471 | with the promise kept at the start, and the map built, unbuilt or finished in the middle, a whole connection gives the naive server's file, replies and end, and the promise is kept |
| MapServer.NaiveIffPromise | src/server/client.c:453-471 | a server does so on all tame input iff the promise holds |
| MapServer.SparseCutKeeps | src/server/client.c:158-170 | a single client's sparse write that breaks off keeps the promise |
| MapServer.DirectCutIff | src/server/client.c:459-470 | a direct write that breaks off keeps it iff what it stored is zero or lies in blocks marked or to be marked by the builder |
| MapServer.LeavesIff | src/server/client.c:453-471 | a whole connection, however it ends, leaves the promise to the next one iff it did not break off like that |
| Sessions.FlushEndsIff | src/server/client.c:340-353 | throwing a payload away ends iff the payload comes in full |
| NaiveDisk.Answers | src/server/client.c:366-420 | the reply of the server everything is measured against, byte for byte: error 74, 28, 22 or 0, the handle, and the bytes read |
| NaiveDisk.WritesIff | src/server/client.c:448-491 | its disk changes exactly under a write of the right magic, in range, by exactly the payload |
| NaiveDisk.RunTurns | src/server/client.c:566-646 | how its session goes on or ends at each request, with types, sizes and codes in plain numbers |
| Sessions.Client.RequestNeedsReply | src/server/client.c:366-420 | which requests are refused, with which reply (74 for a wrong magic, 28 out of range, 22 for an unknown type), and how much input each refusal consumes |
| Sessions.Client.ReplyToWrite | src/server/client.c:448-491 | with the flag read at the start of the write: one that is answered leaves the file and map of MapServer.Stored and is announced to a mirror, once it is stored, before the reply |
| Sessions.Client.ServeRequest | src/server/client.c:566-646 | one request: answered with the reply and effect of MapServer.Serve, or the session ends as it does there; the bytes sent are those of the NBD reply, in plain numbers |
| Sessions.Client.Serve | src/server/client.c:685-726 | on every tame input, from any file and map, with the map built at any moment of the connection: replies, file and map are those of MapServer.Serve, a broken-off write leaves what LeftBehind says, a mirror that reads along at each event misses nothing but a broken-off write, and control is claimed exactly after a bad magic or an in-range DISCONNECT |
| Listener.ListenerControl | src/server/client.c:711-718 | a listener fed any list of mirror transfers and a DISCONNECT, cut anywhere, gains control iff all of it arrived, then holds the result of every transfer, and meets only tame requests |
| Acl.MaskComparesBits | src/server/acl.c:20-20 | each mask of the table compares exactly that many leading bits |
| Acl.EntryMatches | src/server/acl.c:59-75 | the loop over the mask accepts iff the first mask bits agree |
| Acl.IsIncluded | src/server/acl.c:25-84 | true iff some entry of the same family agrees on its first mask bits |
| Acl.Includes | src/server/acl.c:86-95 | an empty list admits everybody unless default-deny, any other list exactly the addresses it covers |
| Acl.FullMask | src/server/acl.c:59-75 | an entry with a full mask covers one address |
| Serve.Server.Audit | src/server/serve.c:471-496 | exactly the connected clients the list rejects are told to stop |
| Serve.Server.AclSignal | src/server/serve.c:648-651 | once the signal of a new list has been seen, which binds newcomers from the moment it is put in place, every client not told to stop is one the list accepts |
| Serve.Server.Accept | src/server/serve.c:414-468 | a client is taken in iff clients are allowed, the list accepts it and a slot is free; nobody else is disturbed |
| Serve.Server.FindSlot | src/server/serve.c:309-325 | the first free slot after cleaning up, or none if all are taken |
| Serve.Server.CloseClients | src/server/serve.c:506-534 | every connected client, and no free slot, is told to stop |
| Serve.Server.JoinClients | src/server/serve.c:759-780 | exactly the joined threads leave the table |
| Serve.Server.ShutDoor | src/server/mirror.c:605-612 | nobody is left iff every connected thread could be joined; the door is shut either way |
| Wire.RequestRoundTrip | src/common/nbdtypes.c:28-46 | decoding an encoded request gives it back |
| Wire.RequestBytesRoundTrip | src/common/nbdtypes.c:28-46 | any 28 bytes decode to a request that encodes to them |
| Wire.FirstByteCounts | src/common/nbdtypes.c:28-46 | numbers stand on the wire most significant byte first |
| Wire.MirrorHeader | src/server/mirror.c:405-415 | the 28 bytes in front of a transfer: magic, no flags, type 1, ".MIRROR.", offset, length |
| Wire.ReplyRoundTrip | src/common/nbdtypes.c:49-61 | decoding an encoded reply gives it back |
| Wire.ReplyBytesRoundTrip | src/common/nbdtypes.c:49-61 | any 16 bytes decode to a reply that encodes to them |
| Wire.ReplyFields | src/common/nbdtypes.c:49-61 | the 16 bytes of a reply: 67 44 66 98, the error, the handle, in that order, both ways |
| Wire.HelloRoundTrip | src/common/readwrite.c:46-100 | the hello is accepted and announces the size and flags it was made from |
| Wire.HelloIff | src/common/readwrite.c:46-100 | a greeting is accepted iff it begins with "NBDMAGIC" and 00 00 42 02 81 86 12 53, and announces what stands at bytes 16 and 24 |
| ProxyRefinement.ProxyRefinement | src/proxy/proxy.c:712-889 | in every reachable state the client has been given a prefix of one reliable disk's replies to the bytes it sent, exactly those when the proxy waits for it, and the disk is that disk's but for the request in hand |
| ProxyRefinement.StepKeeps | src/proxy/proxy.c:712-889 | every turn of the loop and every move of the server keeps the invariant behind it |
| ProxyRefinement.SelectFailsDown | src/proxy/proxy.c:808-811 | leaving the loop because select() failed, in either downstream state, keeps the invariant and the refinement |
| ProxyRefinement.AccountServed | src/proxy/proxy.c:666-701 | a delivered reply puts the reliable disk one request further on, once |
| ProxySafety.DownReadKeeps | src/proxy/proxy.c:438-498 | reading a request in any pieces, with the cache consulted, keeps the invariant and never overruns a buffer |
| ProxySafety.ShouldPrefetchIff | src/proxy/proxy.c:373-384 | despite 32- and 64-bit arithmetic a read is doubled exactly when it is not empty, fits the cache and both halves lie on the disk |
| ProxySafety.HitReply | src/proxy/proxy.c:332-357 | the reply built from the cache is the server's own |
| ProxySafety.DoubledRequest | src/proxy/proxy.c:386-398 | the request rewritten in place is the encoding of the same request with twice the length |
| ProxyUpstream.LossKeeps | src/proxy/proxy.c:871-878 | a failure, a time-out or a failed attempt in any upstream state keeps the invariant with the request still in hand |
| ProxyUpstream.ConnectKeeps | src/proxy/proxy.c:500-540 | a new connection keeps the invariant: nothing of the request sent on it, nothing of a reply read |
| ProxyUpstream.InitReadKeeps | src/proxy/proxy.c:542-582 | reading the greeting in any pieces keeps the invariant and the announced flags |
| ProxyUpstream.UpWriteKeeps | src/proxy/proxy.c:584-624 | writing in any pieces keeps the invariant that the server holds exactly what was sent on this connection |
| ProxyUpstream.AnswerFromMid | src/proxy/proxy.c:524-539 | carrying out a request that was partly carried out before gives the disk and the reply of carrying it out once |
| ProxyUpstream.UpReadKeeps | src/proxy/proxy.c:626-663 | reading the reply in any pieces, with the cache filled, keeps the invariant and never overruns a buffer |
| ProxyUpstream.ReplyTurn | src/proxy/proxy.c:403-434 | a doubled reply is cut to the one asked for, and the rest fills the cache with the disk's bytes |
| ProxyProgress.ResendIdentity | src/proxy/proxy.c:524-539 | what is queued for upstream is the client's request but for a doubled length and still decodes; the server holds a prefix of it; no reply byte of an old connection is left |
| ProxyProgress.ResendsTheSame | src/proxy/proxy.c:584-624 | through any run with the request in hand, however many drops, the bytes queued stay the same |
| ProxyCode.ContainsIff | src/proxy/prefetch.c:66-72 | the 64-bit test of the cached range is right iff the request does not wrap round into the cache |
| ProxyTurns.RequestRead | src/proxy/proxy.c:438-498 | at the 28th byte of a request: the session ends iff it is a DISCONNECT or asks for more than 32 MiB, the payload of a write is awaited, anything else goes on |
| ProxyTurns.PayloadRead | src/proxy/proxy.c:485-497 | a write goes on once its last payload byte has come |
| ProxyTurns.CacheAnswersIff | src/proxy/proxy.c:320-357 | a request is answered from the cache, without the server, iff the cache is full and holds the whole range; with which bytes |
| ProxyTurns.DoublesIff | src/proxy/proxy.c:366-401 | any other read is doubled iff it is not empty, fits the cache and both halves lie on the disk; anything but a read empties the cache |
| ProxyTurns.FillsCache | src/proxy/proxy.c:403-434 | the second half of a doubled reply is what the cache then holds, the first half is passed on |
| ProxyTurns.SequentialReads | src/proxy/proxy.c:320-434 | after a doubled read of [a, a + n), a read inside [a + n, a + 2n) is answered without the server, with the bytes the server sent |
| ProxyTurns.ConnectForgets | src/proxy/proxy.c:500-540 | a new connection starts with the cache empty and nothing sent or read, the request as it was |
| ProxyTurns.GreetingIff | src/proxy/proxy.c:542-582 | a complete greeting is taken iff it is an NBD server's; any other leads to another connection with size and flags as they were |
| ProxyTurns.ReplyRead | src/proxy/proxy.c:626-663 | a reply header with another magic leads to another connection; otherwise exactly the bytes of the reply are awaited |
| ProxyTurns.RequestWritten | src/proxy/proxy.c:584-624 | the reply is awaited exactly once the last byte of the request is written |
| ProxyTurns.ReplyWritten | src/proxy/proxy.c:666-701 | the next request is awaited exactly once the last byte is written; replies are counted, the hello is not |
| ProxyTurns.SessionBegins | src/proxy/proxy.c:712-728 | a new client is greeted with the size and flags of the server, and its replies are counted from 0 |
| ProxyProgress.CacheCoherence | src/proxy/prefetch.c:66-78 | in every reachable state, every hit on any sub-range that does not wrap is answered as upstream would answer, iff the request has the right magic |
| ProxyProgress.BufferBounds | src/common/ioutil.c:318-374 | needle <= size <= capacity always, and no read or copy can meet a buffer that is too small |
| ProxyProgress.SafeCacheSizes | src/proxy/proxy.c:380-384 | no doubled read overruns the reply buffer iff the cache is at most half of NBD_MAX_SIZE or the disk is smaller than NBD_MAX_SIZE + 2 |
| ProxyAnswers.AnswerableIff | src/proxy/proxy.c:650-653 | from any reachable state the request in hand can still be answered iff it is not a non-empty read off the end of the disk |
| ProxyAnswers.WaitsForEver | src/proxy/proxy.c:650-653 | such a read is never answered, whatever happens |
| Proxiers.IoBuffer.Read | src/common/ioutil.c:318-350 | the in-place read is the model's |
| Proxiers.IoBuffer.Write | src/common/ioutil.c:352-374 | the in-place write is the model's |
| Proxiers.Proxier.constructor | src/proxy/proxy.c:16-99 | buffer capacities, an empty cache or none |
| Proxiers.Proxier.ForRequest | src/proxy/proxy.c:320-401 | the in-place update equals the function the theorems are about |
| Proxiers.Proxier.ForReply | src/proxy/proxy.c:403-434 | likewise |
| Proxiers.Proxier.ReadDown | src/proxy/proxy.c:438-498 | likewise |
| Proxiers.Proxier.FinishConnecting | src/proxy/proxy.c:500-540 | likewise |
| Proxiers.Proxier.ReadInitUp | src/proxy/proxy.c:542-582 | likewise |
| Proxiers.Proxier.WriteUp | src/proxy/proxy.c:584-624 | likewise |
| Proxiers.Proxier.ReadUp | src/proxy/proxy.c:626-663 | likewise |
| Proxiers.Proxier.WriteDown | src/proxy/proxy.c:666-701 | likewise |
| Proxiers.Proxier.Session | src/proxy/proxy.c:712-889 | the loop over these methods follows any run of the step system, turn by turn, until the session ends, so the client has been given what the reliable disk would have given it |

## Left out

- Sockets, select, libev, mmap, msync, timers and kill switches: their outcomes are steps, arguments or nondeterministic choices.
- Deadlock freedom and liveness of a migration before clients are closed: the mirror joins clients that may wait on a full ring.
- mirror_read_cb as one method: other threads run between its parts, so beyond `Mirror.Ctrl.ReadCb`, `Mirror.Ctrl.SetupNextXfer` and `Pacing.Pacer` it is a sequence of steps; the estimate that closes clients is a free choice there, and followed in `Overrun.LimitOverrun`.
- DrainEvents: nobody posts while the method loops; the steps it stands for, `SetupDequeue` with a length read earlier and posts in between, are in the step system.
- Alloc: allocates whole words, where bitset_alloc rounds to bytes and memset works in bytes; a field that ends inside a word is not modelled.
- WriteLoop: is on a connection that stays up; a write to a client socket that fails ends the session and adds no state.
- Serve: the hello sent before the first request, the stop signal and the kill switch are not modelled.
- Flush: requires the payload to come, because the program's loop does not end without it; a session on such input has no final state to compare.
- LimitOverrun: above 32 GiB a second the run given closes no clients although the estimate may call for it.
- bitset_clear_range, bitset_set and bitset_clear: nothing in the modelled code calls them; the bits they clear are covered by `BitField.FillRange`.
- ACTION_NOTHING at the end of a migration, mirror supervisors and their retries, the control socket, status output, command-line modes.
- spliceloop and splice_via_pipe_loop: no exact-length property holds of them.
- mbox, flexthread and the other thread wrappers.
- parse.c: turning text into addresses; `Acl.IsEntry` states what parse_acl guarantees of its result.
- The cooldown between connection attempts and the corking of sockets in the proxy: timing only.
