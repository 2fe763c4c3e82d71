# A Dafny model of the DRM core

This project models the parts of the kernel's DRM (Direct Rendering Manager) core in which state
is shared, split over several steps or rolled back, and proves what those parts promise. Each
module has a value model (datatypes and functions), imperative methods in the form of the
original code that are proved against it, and lemmas about all inputs or all runs.

- `Options`, `Slices`, `Words`, `Gf2`: optional values, slices of sequences, machine words as numbers, polynomials over
  GF(2).
- `Crc`, `SidebandHeader`, `SidebandMsg`: the DisplayPort MST sideband link. Its two checksum loops
  are polynomial division, header encoding and decoding invert each other, and cutting a message
  into chunks and putting it together again is the identity for every read size that covers the
  header.
- `DownQueue`: the queue of down messages with its two slots per branch device, as a state machine
  over the sections that run under the queue lock. Timeouts, link failures and replies interleave
  freely. `DownTrace` says what happens to each request over whole runs, and `DownProgress` that
  none is left waiting.
- `Payloads`: channel numbers, proposed payloads and the hardware time-slot table with its in-place
  compaction.
- `HwLock`: the heavyweight hardware lock and the kernel's idle lock, as a state machine over atomic
  steps of any number of users.
- `PickCrtcs`: the framebuffer helper's search for the best assignment of CRTCs to connectors, and
  its choice of modes and tile offsets; `PickLaws` says what these choices mean.
- `Atomic`, `AtomicRouting`, `AtomicPlanes`: atomic modeset updates. Staging, the check that moves
  encoders between connectors, plane masks, and the references and prepare calls of framebuffers
  over commits that may fail part-way. `AtomicAccept` says exactly which updates are accepted, and
  `AtomicSettings` that what was written last is what gets committed.
- `DmaBufs`: the three allocators of legacy DMA buffers, with the width of C's `int` written out;
  `DmaAddresses` says where their buffers lie on the bus.
- `Gem`: GEM objects, handles, names and references, as a state machine over locked sections.
- `Edid`: fetching an EDID record with retries and loading one from a file with in-place
  compaction; `EdidBytes` says what passes, and what is delivered, byte by byte.
- `HashTable`: sorted buckets with early exit as a finite map, and probing for a free key.
- `SetConfig`, `SetPlans`: the legacy modeset helper with its rollback, and exactly when it fails.

Several properties turned out to hold only under a condition. In each case the code is modelled as
it is, the exact condition is proved in both directions, and a concrete input or run shows that it
can fail:

- decoding an encoded header, `DecodeInvertsEncode`: every header with both link counts zero;
- encoding a decoded header, `EncodeInvertsDecode`: `UnusedBitIsLost`;
- taking in a chunk, `GetOne`: `EmptyBodyOverruns`;
- delivering a reply, `FinishKeepsInvIff` and `DeliverySafeIff`: `LateReplyWritesFreed`,
  `LateReplyClearsWrongSlot`;
- sending at once on an empty queue, `EmptyQueueSendsIff`: `BusyWithNothing`;
- freeing a channel, `DeallocateKeepsInvIff`: `FreedTooEarly`;
- removing deleted payloads, `Part1CompleteIff`: `NeighboursLeftBehind`;
- the idle lock's promise, `PromiseKeptByFreeIff`: `PromiseBroken`;
- one connector per encoder, `CheckUniqueIff`: `OneEncoderForTwo`;
- buffers inside their stretch, `LinearStretchIff` and `PciStretchIff`: `LargeCallOverruns`,
  `LargePciCallLeaves`;
- no access to a freed object, `ReadFaultsIff` and `FaultsOnlyOnLateRead`: `LateRead`;
- all or nothing of a failing call, `AllOrNothingIff`: `StaleFlagIsLost`.

The code and its comments disagree in two places that matter here; the code is followed. The
comment on the tile loop of the framebuffer helper says that the first pass handles untiled
connectors, but pass 0 configures no enabled connector. The kernel comment on the idle lock says
that the kernel eventually has the lock, which fails in the window described by
`PromiseKeptByFreeIff`.

`dafny verify dfyconfig.toml` checks the whole project.

## Model

| member | source | states |
|---|---|---|
| Crc.HeaderCrc4 | drm_dp_mst_topology.c:68-100 | the two loops over nibbles compute the 4-bit register remainder of the message bits followed by four zero bits, most significant bit first |
| Crc.DataCrc8 | drm_dp_mst_topology.c:102-134 | the same for the data checksum: the low byte of the 16-bit register after all message bits and eight zero bits |
| Crc.Rem4IsRemainder | drm_dp_mst_topology.c:76-89 | the header loop is long division over GF(2): the bits are a multiple of x^4 + x + 1 plus the register, whose degree is below 4 |
| Crc.Rem8IsRemainder | drm_dp_mst_topology.c:110-123 | the data loop is division by the generator 0x1d5, although it subtracts 0xd5 and lets carries pile up above bit 8 |
| Crc.Crc4IffMultiple | drm_dp_mst_topology.c:68-100 | a checksum nibble is right if and only if bits and nibble together are a multiple of x^4 + x + 1 |
| Crc.Crc8IffMultiple | drm_dp_mst_topology.c:102-134 | a data checksum byte is right if and only if payload and byte together are a multiple of the data generator |
| Crc.BitsConcat | drm_dp_mst_topology.c:68-86 | the bits of two pieces are the bits of the whole, in order |
| SidebandHeader.EncodeHeader | drm_dp_mst_topology.c:142-159 | writes exactly the encoding of the header, reports its length and touches no byte behind it |
| SidebandHeader.DecodeHeader | drm_dp_mst_topology.c:161-196 | returns what the wire bytes decode to, or nothing for a zero first byte, a short buffer or a wrong checksum nibble |
| SidebandHeader.DecodeInvertsEncode | drm_dp_mst_topology.c:142-196 | for every header whose fields fit the wire, with anything behind it, decoding gives the header back if and only if link count total and remaining are not both zero |
| SidebandHeader.EncodeInvertsDecode | drm_dp_mst_topology.c:142-196 | for every accepted buffer, encoding what was decoded gives back the header bytes if and only if the unused bit 5 of the last byte was clear |
| SidebandHeader.UnusedBitIsLost | drm_dp_mst_topology.c:161-196 | a concrete header with that bit set and a right checksum is accepted and does not come back |
| SidebandHeader.AcceptsIffMultiple | drm_dp_mst_topology.c:161-182 | a buffer is accepted if and only if its first byte is not zero, the announced header fits, and the header bits are a multiple of the generator polynomial |
| SidebandHeader.BurstErrorRejected | drm_dp_mst_topology.c:161-182 | any non-empty error confined to four adjacent bits of an accepted header that keeps the announced length is rejected |
| SidebandHeader.BitFlipRejected | drm_dp_mst_topology.c:142-182 | flipping any single bit of any encoded header without changing its length is rejected |
| SidebandHeader.BitsInjective | drm_dp_mst_topology.c:68-86 | byte strings with the same bits are the same, so the checksummed bits determine the header |
| SidebandHeader.WireLayout | drm_dp_mst_topology.c:142-159 | the bits of every encoded header in the order they go out: four bits each of total and remaining link count, the address, broadcast and path flag, six bits of length, start and end flag, an unused zero, the sequence number and four checksum bits |
| SidebandMsg.BuildTxChunk | drm_dp_mst_topology.c:1332-1358 | builds the next chunk of a message in place: header with start and end flags, payload slice, data checksum; the offset advances by the payload sent; the bytes, read back, are a header that names the route, path flag and sequence number, exactly the payload up to the new offset, and a body that is a multiple of the data generator |
| SidebandMsg.SealChunk | drm_dp_mst_topology.c:299-304 | the byte behind the payload is its data checksum, and header and payload stay |
| SidebandMsg.ChunkCrc | drm_dp_mst_topology.c:299-304 | the checksum byte sent behind the payload is the data checksum of exactly the payload |
| SidebandMsg.ChunkAt | drm_dp_mst_topology.c:1332-1350 | every chunk, for every route and offset, is at most 48 bytes long and has the stated length |
| SidebandMsg.ChunkOnWire | drm_dp_mst_topology.c:1332-1358 | for every route, message and offset: the chunk decodes to a header with that route's link counts, address, path flag and sequence number, set start and end flags exactly for the first and last part, and the length of its body; behind it are exactly the next bytes of the message, as many as fit unless it is the last, and a body that is a multiple of the data generator |
| SidebandMsg.FirstAnnounces | drm_dp_mst_topology.c:1332-1345 | the first header of a message says where it goes, under which number and that it starts here |
| SidebandMsg.Receiver.BuildWithHeader | drm_dp_mst_topology.c:324-363 | for every buffer: runs past the receiver's buffers, or copies a negative length, if and only if the taken part or the complete chunk does not fit; otherwise the first part of a chunk is taken in with its flags, a header that does not decode is refused without change, and a second first chunk leaves message and flags alone |
| SidebandMsg.Receiver.BuildContinue | drm_dp_mst_topology.c:351-363 | for every part: runs past the chunk or message buffer if and only if it or the complete chunk does not fit; otherwise it is appended, and a complete chunk moves to the message without its checksum byte |
| SidebandMsg.Receiver.FlushChunk | drm_dp_mst_topology.c:356-362 | a complete chunk is appended to the message without its checksum byte, an incomplete one is not; goes wrong if and only if the complete chunk announces no byte or the message would pass 255 bytes |
| SidebandMsg.Receiver.FetchRest | drm_dp_mst_topology.c:2018-2035 | the loop of further reads leaves the receiver as reading the rest of the chunk at once, and goes wrong if and only if something was left to read and chunk or message have no room for it |
| SidebandMsg.Receiver.GetOne | drm_dp_mst_topology.c:1996-2036 | for every register content, whether or not reads fail: a failed first read changes nothing; otherwise one chunk is taken in, and a buffer is overrun if and only if an accepted header announces an empty body, more than 48 bytes, or more than the message has room for |
| SidebandMsg.EmptyBodyOverruns | drm_dp_mst_topology.c:356-362 | a concrete header with a right checksum that announces an empty body, for which the copy has a negative length |
| SidebandMsg.Receiver.constructor | drm_dp_mst_topology.c:2073-2082 | a new receiver is empty and waits for a first chunk |
| SidebandMsg.ReadMoreCompletes | drm_dp_mst_topology.c:2018-2035 | the remaining reads complete the chunk however it is cut into pieces |
| SidebandMsg.ChunkAbsorbed | drm_dp_mst_topology.c:1996-2036 | a chunk whose header is covered by the first read is absorbed whole |
| SidebandMsg.ChunkRefused | drm_dp_mst_topology.c:1996-2017 | if the first read does not cover the header, the receiver does not change at all |
| SidebandMsg.OneChunk | drm_dp_mst_topology.c:318-364 | one chunk moves a receiver waiting at an offset to the next offset; the end flag is set exactly by the last chunk |
| SidebandMsg.FragmentThenReassemble | drm_dp_mst_topology.c:1310-1364 | fragmenting and reassembling is the identity: for every route, every message up to 255 bytes and every read size from the header length up, after k chunks the receiver holds exactly the bytes those carried, and it ends with the message, the start flag set from the first chunk on and the end flag only by the last, and a first header that names the route, the path flag and the sequence number |
| SidebandMsg.ReceivePrefix | drm_dp_mst_topology.c:1996-2036 | from any offset and after any number of chunks the receiver holds exactly the bytes up to the end of the last one, and the flags that go with it |
| SidebandMsg.RepeatedStartIgnored | drm_dp_mst_topology.c:331-341 | a message that starts again before it is complete: message, flags and first header stay, and whatever follows is received as if the chunk had never arrived |
| SidebandMsg.ShortReadsLoseMessage | drm_dp_mst_topology.c:1996-2017 | with a read size below the header length, no message ever arrives: the receiver stays as it was |
| SidebandMsg.Transfer | drm_dp_mst_topology.c:1310-1364 | the sender's loop and the receiver's methods back to back deliver every message, under a first header that names its route and sequence number |
| DownQueue.Manager.SetHdrFromDst | drm_dp_mst_topology.c:1278-1306 | a message without a sequence number takes a free slot of its branch, or fails and leaves the slots if both are taken |
| DownQueue.Manager.ProcessSingleTx | drm_dp_mst_topology.c:1310-1364 | sends one chunk of the head message and returns 1 after its last chunk, 0 if more remain, a negative number if there is no slot or the write fails |
| DownQueue.Manager.ChunkSent | drm_dp_mst_topology.c:1358-1363 | records the chunk on the link and the new offset and state of the message |
| DownQueue.Manager.ProcessSingleDown | drm_dp_mst_topology.c:1367-1396 | one round on the queue: the head leaves it when sent in full or failed, and a failed head gives up its slot |
| DownQueue.Manager.QueueDown | drm_dp_mst_topology.c:1421-1429 | queues the bytes, destination and path flag it was given under a new identity, leaves every other request as it was, appends behind the waiting ones and, if nothing is in progress, starts sending |
| DownQueue.Manager.TxWork | drm_dp_mst_topology.c:2607-2615 | the worker keeps the invariant, neither adds nor removes messages, and leaves sending in progress exactly while something is queued |
| DownQueue.Manager.WaitTimedOut | drm_dp_mst_topology.c:743-779 | a sender that stops waiting keeps the invariant and leaves its message in no queue and in no slot; all other messages and a matched reply stay |
| DownQueue.Manager.FindReplyTarget | drm_dp_mst_topology.c:2038-2063 | under the invariant a reply is matched to the message that holds the slot of its branch and sequence number, and to none if nobody holds it |
| DownQueue.Manager.DeliverReply | drm_dp_mst_topology.c:2060-2091 | writes through a freed message if and only if the matched message is gone; otherwise the message is replied, the slot is free and the invariant is kept |
| DownQueue.StartKeepsInv | drm_dp_mst_topology.c:1278-1306 | giving the head a slot keeps slots, queue, link log and pending reply consistent |
| DownQueue.AdvanceKeepsInv | drm_dp_mst_topology.c:1352-1396 | sending a chunk keeps the invariant and extends the chain of chunks on the link |
| DownQueue.DropKeepsInv | drm_dp_mst_topology.c:1384-1396 | a failed head leaves the queue and its slot consistently |
| DownQueue.NoSlotKeepsInv | drm_dp_mst_topology.c:1283-1288 | a message that finds both slots taken is dropped without touching them |
| DownQueue.ProcessKeepsInv | drm_dp_mst_topology.c:1367-1396 | every round on the queue keeps the invariant, whatever the link answers |
| DownQueue.EnqueueKeepsInv | drm_dp_mst_topology.c:1421-1429 | queueing a message keeps it |
| DownQueue.GiveUpKeepsInv | drm_dp_mst_topology.c:743-779 | a timeout at any moment keeps it |
| DownQueue.LookupKeepsInv | drm_dp_mst_topology.c:2060-2063 | matching a reply keeps it |
| DownQueue.FinishKeepsInvIff | drm_dp_mst_topology.c:2060-2091 | delivering a matched reply is safe (no freed message is written and the invariant is kept) if and only if its sender has not given up since the lookup: the lock is dropped between the two sections |
| DownQueue.DeliverySafeIff | drm_dp_mst_topology.c:2060-2091 | over every run: between the lookup and the delivery of a reply, delivering is safe if and only if no step in between is the timeout of that message |
| DownQueue.LateReplyWritesFreed | drm_dp_mst_topology.c:2077-2086 | a concrete run in which the sender times out after the lookup, so that the reply is written into a freed message |
| DownQueue.TransitionKeepsInv | drm_dp_mst_topology.c:1278-1429 | every step of the machine keeps the invariant; delivering into a freed message is not a step but a fault |
| DownQueue.RunKeepsInv | drm_dp_mst_topology.c:1278-1429 | every state of every run, with any number of messages, branches and interleavings, satisfies the invariant as long as no reply was written into a freed message |
| DownQueue.InFlightDistinct | drm_dp_mst_topology.c:1278-1306 | two messages in flight to one branch never have the same sequence number, in every reachable state |
| DownQueue.MessagesUninterrupted | drm_dp_mst_topology.c:1310-1396 | whenever the last chunk of a message is on the link, the chunks up to it are exactly the fragments of that message, in order and with nothing between |
| DownQueue.PeerReceives | drm_dp_mst_topology.c:1310-1396 | so a peer reading those chunks reassembles the message, in every run |
| DownQueue.LateReplyClearsWrongSlot | drm_dp_mst_topology.c:2060-2088 | a concrete run in which a reply is delivered after its sender gave up and the slot was taken over by another message in flight |
| DownTrace.QueuedAsGiven | drm_dp_mst_topology.c:1421-1429 | a call queues the bytes, destination and path flag that it was given, under an identity that nothing had before |
| DownTrace.RequestKept | drm_dp_mst_topology.c:1310-1429 | over every run: as long as a message is there it is the request that was queued under its identity |
| DownTrace.RequestOnLink | drm_dp_mst_topology.c:1310-1364 | over every run: every chunk that ever goes out for a call carries its bytes to its branch device, also after the message is gone |
| DownTrace.PeerGetsRequest | drm_dp_mst_topology.c:1310-1429 | over every run: a peer that reads the chunks of a call up to the last one ends with exactly the bytes that the call was given, and a first header that names the branch device and the kind of message |
| DownTrace.InCallOrder | drm_dp_mst_topology.c:1367-1429 | over every run: no chunk of a later call comes before one of an earlier call |
| DownTrace.QueueInCallOrder | drm_dp_mst_topology.c:1421-1429 | over every run: requests wait in the order of the calls |
| DownTrace.ReplyFinds | drm_dp_mst_topology.c:2038-2063 | over every run: the number that a chunk of a message in flight decodes to is the slot of the branch device that holds the message, so that a reply under that number is matched to it |
| DownTrace.SentOnLink | drm_dp_mst_topology.c:1352-1396 | over every run: a message that counts as sent or replied has all its fragments on the link, in order and with nothing between |
| DownTrace.RepliedByDelivery | drm_dp_mst_topology.c:2077-2088 | over every run: only the delivery of a reply matched to a message makes it replied, and it was sent before |
| DownTrace.ProcessMoves | drm_dp_mst_topology.c:1310-1396 | a round on the queue sends exactly the next chunk of the head, or times the head out if and only if the link fails or both slots are taken; nothing else changes |
| DownTrace.RunKeepsTrace | drm_dp_mst_topology.c:1278-1429 | over every run: identities on the link and in the queue ascend, every chunk carries the request of its message, and what counts as sent is on the link in full |
| DownTrace.TransitionContinues | drm_dp_mst_topology.c:1278-1429 | every step keeps requests, addresses and numbers, moves states only onward, and only extends the link by at most one chunk |
| DownProgress.RunStaysBusy | drm_dp_mst_topology.c:1367-1429 | over every run: while a request waits, sending is in progress |
| DownProgress.WorkMoves | drm_dp_mst_topology.c:2607-2615 | over every run: a round of the worker moves the head of the queue if there is one |
| DownProgress.Drains | drm_dp_mst_topology.c:1367-1396 | over every run: rounds of the worker, whatever the link answers, empty the queue after no more of them than there are requests and bytes waiting |
| DownProgress.EmptyQueueSendsIff | drm_dp_mst_topology.c:1421-1429 | a request that finds the queue empty and a free slot goes out at once if and only if sending is not in progress |
| DownProgress.GivingUpLeavesBusy | drm_dp_mst_topology.c:743-779 | when the sender of the only waiting request gives up, the queue is empty and sending stays in progress |
| DownProgress.BusyWithNothing | drm_dp_mst_topology.c:743-779 | from every first state, a long request and its timeout lead there in two steps |
| DownProgress.NumbersTakeTurns | drm_dp_mst_topology.c:1283-1304 | the number given out is a free slot; on an idle branch device it is the one whose turn it is, and the turn passes to the other; otherwise the turn stays |
| Payloads.Table.constructor | drm_dp_mst_topology.c:2644-2652 | an empty table satisfies the invariant |
| Payloads.Table.InitVcpi | drm_dp_mst_topology.c:2263-2282 | more slots than the link has are refused without any change; otherwise the first free payload index and channel number are assigned to the port, or only the number of slots it asks for changes; either way the invariant is kept |
| Payloads.Table.AssignPayloadId | drm_dp_mst_topology.c:682-709 | the allocation step in place; negative exactly if it fails |
| Payloads.Table.PutPayloadId | drm_dp_mst_topology.c:711-730 | releases a channel number and the proposed entries that name it |
| Payloads.Table.DeallocateVcpi | drm_dp_mst_topology.c:2344-2356 | a port gives up its channel number and every proposed entry that names it, and asks for no slots any more; without a channel only the slots it asks for are reset |
| Payloads.Table.SolveEntry | drm_dp_mst_topology.c:1637-1654 | one hardware entry is brought in line with what is wanted |
| Payloads.Table.SolveLoop | drm_dp_mst_topology.c:1625-1656 | after the loop every entry has the slots wanted for it, laid out one after the other |
| Payloads.Table.MoveDown | drm_dp_mst_topology.c:1662-1668 | one turn of the inner removal loop moves one entry and its mask bit down |
| Payloads.Table.Remove | drm_dp_mst_topology.c:1661-1672 | removing an entry shifts all later ones down with their mask bits |
| Payloads.Table.UpdatePart1 | drm_dp_mst_topology.c:1617-1679 | the whole of part 1, in place, against its specification |
| Payloads.Table.UpdatePart2 | drm_dp_mst_topology.c:1691-1717 | the remote half, in place, against its specification |
| Payloads.AllocateKeepsInv | drm_dp_mst_topology.c:682-709 | an allocation keeps the invariant; the channel number is new and in range, and the entry taken has no slots, neither wanted nor in hardware |
| Payloads.AllocateIs | drm_dp_mst_topology.c:682-709 | fails if and only if all table entries or all channel numbers are taken; otherwise exactly one entry, free before, names the port, which gets a new number and the slots asked for, and no other port changes |
| Payloads.FreeUndoesAllocate | drm_dp_mst_topology.c:682-730 | freeing a channel that was only just allocated gives back number, mark and entry, and leaves everything else as it was |
| Payloads.ResetKeepsInv | drm_dp_mst_topology.c:2329-2336 | asking for no slots keeps the invariant |
| Payloads.DeallocateKeepsInvIff | drm_dp_mst_topology.c:711-730 | freeing a channel keeps the invariant if and only if the hardware table has no slots for the port |
| Payloads.FreedTooEarly | drm_dp_mst_topology.c:711-730 | a concrete run after which freeing a channel that still has slots in hardware breaks the invariant |
| Payloads.Part1ReleasesReset | drm_dp_mst_topology.c:1617-1679 | after a reset and part 1 the hardware has no slots left for the port, so it may be freed |
| Payloads.ResetThenPart1 | drm_dp_mst_topology.c:2329-2336 | resetting a port and running part 1, whatever the link answers, makes it safe to free the channel; every other port asks for what it asked for |
| Payloads.RemoveKeepsInv | drm_dp_mst_topology.c:1661-1672 | removing any entry of a table in which hardware and wishes agree keeps the invariant and that agreement |
| Payloads.CompactKeepsInv | drm_dp_mst_topology.c:1658-1675 | the whole removal loop keeps the invariant and the agreement of hardware and wishes |
| Payloads.CompactCompleteIff | drm_dp_mst_topology.c:1658-1675 | the removal loop clears all deleted entries if and only if no two of them are neighbours: the index moves on past the entry that took the place |
| Payloads.Part1CompleteIff | drm_dp_mst_topology.c:1617-1679 | for every table and every answer of the link: part 1 leaves no deleted entry if and only if no two neighbouring entries on entry have slots or a pending deletion while nothing is wanted for them |
| Payloads.NeighboursLeftBehind | drm_dp_mst_topology.c:1658-1675 | a concrete run in which two neighbouring channels are reset together and part 1 leaves one of them deleted but not removed |
| Payloads.Part1KeepsInv | drm_dp_mst_topology.c:1617-1679 | part 1 keeps the invariant and leaves in hardware exactly what is wanted, whatever the writes answer |
| Payloads.Part2KeepsInv | drm_dp_mst_topology.c:1691-1717 | part 2 keeps the invariant and moves no range |
| Payloads.Part2States | drm_dp_mst_topology.c:1697-1714 | up to the first refusal of the link, created channels become remote and deleted ones are forgotten; from there on no entry changes |
| Payloads.Part1GivesLayout | drm_dp_mst_topology.c:1617-1679 | after part 1 the live ranges are the wishes in their order, one after the other from slot 1, and each is in the state that the link's answer to its change calls for |
| Payloads.LayoutContiguous | drm_dp_mst_topology.c:1625-1656 | such a layout has no gap and no overlap and ends at the sum of the wishes |
| Payloads.ContiguousDisjoint | drm_dp_mst_topology.c:1625-1656 | its ranges are disjoint and ordered |
| Payloads.RunKeepsInv | drm_dp_mst_topology.c:682-730 | every state of every run of allocations, resets, frees and updates satisfies the invariant |
| Payloads.LiveVcpisDistinct | drm_dp_mst_topology.c:682-709 | in every reachable state channel numbers are in range and no two ports share one |
| HwLock.LockData.LockTake | drm_lock.c:180-215 | the new word, and 1 exactly if the context has got the lock that nobody held |
| HwLock.LockData.FreeToKernel | drm_lock.c:260-267 | the unlock step of the machine, for every owner: with idle-lock users waiting the word goes to the kernel, not contended, and is recorded, and the owner is out; otherwise nothing changes yet |
| HwLock.LockData.FreeWord | drm_lock.c:269-282 | the step of the machine that frees the word: it keeps its context; 1 exactly if somebody else held it, which never happens to an owner |
| HwLock.LockData.IdlelockTake | drm_lock.c:329-346 | the steps of the machine for an idle-lock user that nobody interrupts: it is counted as waiting, and gets the lock exactly if it is free or recorded already; a recorded lock is not tried again |
| HwLock.LockData.IdlelockRelease | drm_lock.c:348-366 | the release step of the machine: the last idle-lock user frees the word if the idle lock was recorded |
| HwLock.StepKeepsInv | drm_lock.c:180-282 | every step of every user and idle-lock user keeps waiter counts, lock word and idle flag consistent |
| HwLock.RunKeepsInv | drm_lock.c:56-112 | every state of every interleaving satisfies the invariant |
| HwLock.MutualExclusion | drm_lock.c:180-282 | in every reachable state at most one party owns the lock, the held flag is set if and only if somebody does, the context is the owner's, and the idle flag implies that the kernel holds the lock and somebody in it waits |
| HwLock.ContendedIff | drm_lock.c:180-215 | a user that takes the free lock marks it contended if and only if another user or an idle-lock user is waiting |
| HwLock.ContentionStays | drm_lock.c:180-215 | an attempt at a held lock changes nothing but its contended mark, which stays for as long as the holder has the lock |
| HwLock.PromiseKept | drm_lock.c:329-346 | the idle-lock promise (the kernel has the lock, or its owner will hand it over, or an attempt is still to come) survives every step but the second half of an unlock |
| HwLock.PromiseKeptByFreeIff | drm_lock.c:255-282 | that half keeps the promise if and only if no idle-lock user waits or one is still about to try |
| HwLock.PromiseBroken | drm_lock.c:255-282 | a concrete run in which an idle-lock user arrives between the two halves and then waits with nobody to hand the lock over |
| HwLock.NextUnlockDelivers | drm_lock.c:255-366 | over every run: once an idle-lock user waits, the next unlock by any user gives the kernel the lock, and until that waiter releases it the word is the kernel's and no user owns the lock |
| PickCrtcs.FirstPreferred | drm_fb_helper.c:1240-1252 | finds a preferred mode that fits if and only if there is one |
| PickCrtcs.PreferredMode | drm_fb_helper.c:1240-1252 | the loop returns the first preferred mode that fits |
| PickCrtcs.Admissible | drm_fb_helper.c:1572-1586 | the test of a CRTC against the connectors before it decides exactly whether the extended assignment is valid |
| PickCrtcs.Pick | drm_fb_helper.c:1524-1602 | for every configuration and every valid fixed prefix: the prefix is unchanged, the array ends with a valid assignment reaching the returned score, and no valid extension scores more |
| PickCrtcs.TryAll | drm_fb_helper.c:1569-1598 | the loop over CRTCs keeps the best of those tried so far |
| PickCrtcs.ScoreOf | drm_fb_helper.c:1554-1560 | the score of a connector: one, and more for being connected, a command-line mode and a preferred mode |
| PickCrtcs.AllTried | drm_fb_helper.c:1569-1598 | once every possible CRTC has been tried the best is the best of all valid assignments |
| PickCrtcs.LeaveOut | drm_fb_helper.c:1544-1547 | leaving a connector without CRTC scores what the later ones reach |
| PickCrtcs.Targets.constructor | drm_fb_helper.c:1462-1464 | no connector is configured at the start |
| PickCrtcs.Targets.TileOffsets | drm_fb_helper.c:1423-1453 | the offset of a tile is the sum of widths to its left and heights above it |
| PickCrtcs.Targets.PickMode | drm_fb_helper.c:1500-1511 | command-line mode first, then the preferred one, then the first of the list |
| PickCrtcs.Targets.Visit | drm_fb_helper.c:1469-1514 | one visit of a connector in one pass configures it exactly if its pass has come |
| PickCrtcs.Targets.TargetPreferred | drm_fb_helper.c:1455-1522 | the retry loop ends after exactly the highest pass an enabled connector needs; every enabled connector has its mode and every tile its offset |
| PickCrtcs.LastPassMet | drm_fb_helper.c:1455-1522 | that pass is needed by some enabled connector |
| PickLaws.PreferredAt | drm_fb_helper.c:1240-1252 | the mode found is the first of the list that is preferred and fits |
| PickLaws.ChoiceIs | drm_fb_helper.c:1500-1511 | the mode of the command line; without one the first preferred mode that fits; without one the first of the list; none only for an empty list |
| PickLaws.ScorePoints | drm_fb_helper.c:1554-1560 | a connector that is shown counts one, and one more for each of three things in its favour |
| PickLaws.SharingIff | drm_fb_helper.c:1572-1586 | an assignment to possible CRTCs is valid if and only if connectors share only the single CRTC there is, and only with equal modes |
| PickLaws.NothingLeftOut | drm_fb_helper.c:1524-1602 | a best assignment leaves no connector out for which a possible CRTC is free |
| PickLaws.PassIsFirst | drm_fb_helper.c:1469-1500 | a tile is configured in the first pass that covers its place in the grid |
| PickLaws.RowOffsets | drm_fb_helper.c:1423-1453 | in a row of any length each tile lands right of all the tiles on its left |
| PickLaws.ColumnOffsets | drm_fb_helper.c:1423-1453 | in a column each tile lands below all the tiles above it |
| Atomic.GetCrtc | drm_atomic.c:189-226 | stages the CRTC and leaves every CRTC that was staged before, and all connectors and planes, as they were |
| Atomic.SwapValid | drm_atomic_helper.c:1142-1179 | a swap leaves links to existing CRTCs only |
| Atomic.GetConnKeepsBuilt | drm_atomic.c:290-342 | staging a connector also stages its committed CRTC, and keeps that for all staged connectors |
| Atomic.SetConnCrtcKeepsBuilt | drm_atomic.c:443-464 | moving a staged connector stages the new CRTC and keeps all staged connectors covered |
| Atomic.GetCrtcKeepsBuilt | drm_atomic.c:189-226 | staging more CRTCs keeps an update well built |
| Atomic.SetCrtcFieldsKeepsBuilt | drm_atomic_helper.c:1479-1480 | and so does changing mode and enable flag of a staged CRTC |
| Atomic.SetConnCrtcMoves | drm_atomic.c:443-464 | the connector ends on the CRTC given, which is staged, and keeps its encoder; no other connector, plane, mode or enable flag changes |
| Atomic.StagingKeepsMerged | drm_atomic.c:189-342 | staging changes nothing in the merged configuration but cleared change flags of the CRTCs it stages |
| AtomicRouting.AtomicState.constructor | drm_atomic.c:51-97 | a new update stages nothing |
| AtomicRouting.AtomicState.GetCrtcState | drm_atomic.c:189-226 | stages a copy of the committed CRTC with cleared change flags, unless it is staged already |
| AtomicRouting.AtomicState.GetConnectorState | drm_atomic.c:290-342 | stages a copy of the connector and of its committed CRTC, unless it is staged already |
| AtomicRouting.AtomicState.SetCrtcForConnector | drm_atomic.c:443-464 | moves a staged connector and stages the CRTC it moves to |
| AtomicRouting.AtomicState.GetCurrentCrtc | drm_atomic_helper.c:83-100 | finds the CRTC of the committed connector that has the encoder |
| AtomicRouting.AtomicState.StealEncoder | drm_atomic_helper.c:102-149 | turns off every connector whose committed encoder is taken and flags the CRTC |
| AtomicRouting.AtomicState.UpdateConnectorRouting | drm_atomic_helper.c:151-246 | one connector's turn, including the failures without an encoder, which leave all planes, masks, modes and enable flags |
| AtomicRouting.AtomicState.CompareLoop | drm_atomic_helper.c:342-360 | flags CRTCs whose mode or enable flag changes |
| AtomicRouting.AtomicState.RouteLoop | drm_atomic_helper.c:362-371 | the loop over connectors; also where it fails, CRTCs are only staged and flagged |
| AtomicRouting.AtomicState.VerifyLoop | drm_atomic_helper.c:379-405 | adds the affected connectors and succeeds if and only if every flagged CRTC is enabled exactly if a connector of the merged configuration uses it |
| AtomicRouting.AtomicState.AddAffectedConnectors | drm_atomic.c:485-514 | stages every connector that is committed to the CRTC |
| AtomicRouting.AtomicState.ConnectorsForCrtc | drm_atomic.c:526-544 | counts the staged connectors of the CRTC |
| AtomicRouting.AtomicState.Check | drm_atomic_helper.c:333-408 | the whole check in place, against its specification; also where it fails and leaves the update half rewritten, no plane, mask, mode or enable flag has changed and CRTCs were only staged and flagged |
| AtomicRouting.StealFromConns | drm_atomic_helper.c:102-149 | of all connectors exactly those whose committed encoder is stolen are turned off, and CRTCs only gain flags |
| AtomicRouting.TakeEncoderConns | drm_atomic_helper.c:219-236 | taking an encoder turns off its committed owner, gives it to the taker and flags both CRTCs |
| AtomicRouting.RouteProgress | drm_atomic_helper.c:362-371 | the loop, turn by turn, computes the closed-form routing: who picks, who is stolen from, and which CRTCs are flagged |
| AtomicRouting.CheckGivesRouting | drm_atomic_helper.c:333-408 | after a successful check every connector is where the closed form puts it, and has an encoder if and only if it has a CRTC |
| AtomicRouting.CheckUniqueIff | drm_atomic_helper.c:102-246 | after a successful check each encoder has at most one connector if and only if no two connectors that stay on newly picked the same encoder |
| AtomicRouting.OneEncoderForTwo | drm_atomic_helper.c:362-371 | a concrete update that the check accepts although it gives one encoder to two connectors |
| AtomicRouting.CheckKeepsEnable | drm_atomic_helper.c:379-405 | a successful check keeps the rule that a CRTC is enabled if and only if some connector uses it, also for CRTCs whose connectors were stolen and for unflagged ones |
| AtomicRouting.CheckSettles | drm_atomic_helper.c:333-408 | a successful check without a double pick leaves an update whose merged configuration has unique encoders, encoder and CRTC set together and matching enable flags |
| AtomicRouting.CheckGrows | drm_atomic_helper.c:333-408 | for every device, consistent or not, a successful check changes no plane, mask, mode or enable flag, and only stages and flags CRTCs |
| AtomicRouting.AffectedAreCounted | drm_atomic.c:485-544 | after the affected connectors are added, the count of staged connectors is zero exactly if no connector of the merged configuration uses the CRTC |
| AtomicRouting.VerifyIs | drm_atomic_helper.c:379-405 | the last loop changes nothing in the merged configuration and accepts exactly matching CRTCs |
| AtomicRouting.RunKeepsRouting | drm_atomic_helper.c:333-408 | every committed configuration of every run of accepted updates has unique encoders, encoder and CRTC set together, and enable flags that match use |
| AtomicRouting.VerifyIff | drm_atomic_helper.c:379-405 | the last loop accepts an update if and only if every flagged CRTC is enabled exactly if a connector of the merged configuration uses it |
| AtomicAccept.RouteIff | drm_atomic_helper.c:362-371 | the loop over connectors goes through if and only if every connector that is still on at its turn has an encoder chosen |
| AtomicAccept.CheckAcceptsIff | drm_atomic_helper.c:333-408 | for every consistent device and every update built on it, the check accepts if and only if every connector that is on at its turn has an encoder chosen, every CRTC that needs a modeset is enabled exactly if a connector ends on it, and the fixup callbacks agree; all in terms of the update as it was given |
| AtomicAccept.CheckMarksExactly | drm_atomic_helper.c:333-408 | of an accepted update exactly the CRTCs that need a modeset are flagged: changed mode or enable flag, flagged by the caller, or left or entered by a connector or an encoder |
| AtomicAccept.CheckAcceptsIffEnabled | drm_atomic_helper.c:333-408 | on a device whose enable flags match use that is, for every CRTC, enabled if and only if used afterwards |
| AtomicPlanes.GetPlaneKeeps | drm_atomic.c:235-271 | staging a plane stages its CRTC and keeps masks and planes in agreement |
| AtomicPlanes.SetPlaneCrtcIs | drm_atomic.c:361-397 | moving a plane takes it out of exactly one mask, puts it into exactly one, and touches no other plane |
| AtomicPlanes.SetPlaneCrtcKeeps | drm_atomic.c:361-397 | the masks agree with the planes afterwards, for every CRTC and plane |
| AtomicPlanes.SetFbKeeps | drm_atomic.c:410-426 | changing a framebuffer leaves masks alone |
| AtomicPlanes.CheckKeeps | drm_atomic_helper.c:333-408 | a modeset check, successful or not, leaves planes and masks in agreement |
| AtomicPlanes.SwapKeeps | drm_atomic_helper.c:1142-1179 | a swap commits agreeing masks |
| AtomicPlanes.SwapConserves | drm_atomic_helper.c:1142-1179 | a swap exchanges what it takes out for what was staged: references and prepared pairs are conserved |
| AtomicPlanes.StepKeepsPlanes | drm_atomic.c:189-271 | every step, also a check that fails half-way, keeps masks and planes in agreement, merged and committed, and both CRTCs of a staged plane staged |
| AtomicPlanes.StepKeepsBuilt | drm_atomic.c:189-464 | every update built by any sequence of steps before its check is one the check may rely on |
| AtomicPlanes.DuplicateBalances | drm_atomic_helper.c:1886-1901 | staging a plane accounts for exactly one more reference to its committed framebuffer |
| AtomicPlanes.SetFbBalances | drm_atomic.c:410-426 | changing a framebuffer moves exactly one reference, and the one dropped was held |
| AtomicPlanes.StagingKeepsBalance | drm_atomic.c:189-426 | every building step keeps references equal to live plane states |
| AtomicPlanes.EndingKeepsBalance | drm_atomic_helper.c:857-909 | committing or freeing drops only references that are held and cleans up only what was prepared |
| AtomicPlanes.CommitIs | drm_atomic_helper.c:857-909 | a commit that goes through leaves exactly the references and prepared pairs of the new planes |
| AtomicPlanes.StepKeepsInv | drm_atomic_helper.c:857-909 | every step, also a check that fails half-way and a commit that fails while preparing, keeps the whole invariant |
| AtomicPlanes.StepKeepsRouted | drm_atomic.c:613-626 | every step but a check with a double pick keeps the committed routing and enable flags consistent, and an update that passed the check ready to be committed |
| AtomicPlanes.StartHolds | drm_atomic_helper.c:1869-1877 | a device whose planes are off is a valid start |
| AtomicPlanes.StartRouted | drm_atomic_helper.c:1813-1936 | with its connectors and CRTCs off its routing is consistent |
| AtomicPlanes.RunKeepsInv | drm_atomic_helper.c:857-909 | every state of every run satisfies the invariant |
| AtomicPlanes.AlwaysBalanced | drm_atomic_helper.c:962-1114 | in every state of every run the masks agree with the planes, each framebuffer has one reference per live plane state showing it, and the outstanding prepare calls are one per committed plane and framebuffer |
| AtomicPlanes.AlwaysConsistent | drm_atomic.c:584-626 | everything together: over every run of staging, checks and commits that pass or fail and updates thrown away, in which no check gives one encoder to two connectors, encoders are unique, encoder and CRTC set together, enable flags match use, masks agree with planes, and references and prepared framebuffers are exact |
| AtomicSettings.SettingHolds | drm_atomic.c:361-464 | over every run: what a caller writes (a plane's framebuffer or CRTC, a CRTC's mode, a connector's CRTC) is in the merged configuration until it is written again, thrown away or, for a connector, taken away by a check |
| AtomicSettings.LastWriteWins | drm_atomic_helper.c:857-909 | over every run: a commit that lands leaves in the device exactly what was written last |
| AtomicSettings.DeviceStays | drm_atomic_helper.c:857-909 | over every run: nothing but a commit whose framebuffers can all be prepared changes the device |
| AtomicSettings.LandsIff | drm_atomic_helper.c:962-1008 | a commit lands if and only if every staged plane that shows a framebuffer can be prepared |
| AtomicSettings.FreeReverts | drm_atomic.c:144-152 | throwing an update away brings back exactly the committed configuration |
| AtomicSettings.MarkStays | drm_atomic_helper.c:342-371 | a CRTC flagged by a caller or a check stays flagged through every step until the update lands or is thrown away |
| AtomicSettings.CheckAllowsCommit | drm_atomic.c:613-626 | a commit is possible after a check if and only if the check accepted |
| AtomicSettings.CommitMayRetry | drm_atomic_helper.c:866-869 | a commit that cannot prepare its framebuffers changes nothing and may be tried again |
| AtomicSettings.StartsAfresh | drm_atomic_helper.c:857-909 | after a commit that lands, or after throwing the update away, nothing is staged and a new update can be checked |
| AtomicPlanes.Committer.SetFbForPlane | drm_atomic.c:410-426 | drops the old reference, takes the new one and changes the staged plane |
| AtomicPlanes.Committer.PreparePlanes | drm_atomic_helper.c:962-1008 | fails if and only if some staged framebuffer cannot be prepared, and then leaves no pair prepared that was not before |
| AtomicPlanes.Committer.Rollback | drm_atomic_helper.c:990-1006 | the descending loop undoes exactly the pairs prepared so far |
| AtomicPlanes.Committer.CleanupPlanes | drm_atomic_helper.c:1093-1114 | cleans up exactly the framebuffers of the states it is given |
| AtomicPlanes.Committer.SwapState | drm_atomic_helper.c:1142-1179 | the device gets the staged states and the update the replaced ones |
| AtomicPlanes.Committer.SwapConns | drm_atomic_helper.c:1147-1156 | each staged connector state becomes current, the others stay |
| AtomicPlanes.Committer.SwapCrtcs | drm_atomic_helper.c:1158-1167 | each staged CRTC state becomes current, the others stay |
| AtomicPlanes.Committer.SwapPlanes | drm_atomic_helper.c:1169-1178 | each staged plane state changes places with the current one |
| AtomicPlanes.Committer.DestroyPlanes | drm_atomic.c:144-152 | every plane state of the update gives up its reference |
| AtomicPlanes.Committer.Commit | drm_atomic_helper.c:857-909 | changes nothing if preparing fails, otherwise the device, references and prepared pairs are those of the commit step and the invariant is kept |
| DmaBufs.OrderBase2 | drm_bufs.c:619-621 | the least order whose power of two covers the size |
| DmaBufs.Shape | drm_bufs.c:623-626 | small buffers share one page and larger ones fill their pages exactly, with or without the page alignment flag |
| DmaBufs.SegmentsWhole | drm_bufs.c:800-804 | a PCI segment holds a whole number of alignment units, at least one |
| DmaBufs.RoomLeft | drm_bufs.c:886-888 | the inner loop's test on the buffer size asks exactly whether another alignment unit fits |
| DmaBufs.LinearStretchIff | drm_bufs.c:687-743 | the buffers of an AGP or scatter/gather call lie in the stretch of bytes the call adds if and only if count times page run fits an int |
| DmaBufs.PciStretchIff | drm_bufs.c:861-950 | the buffers of a PCI call do if and only if count less one times page run fits an int |
| DmaBufs.LargeCallOverruns | drm_bufs.c:687-743 | 512 AGP buffers of 4 MiB, on any state, leave their stretch |
| DmaBufs.LargePciCallLeaves | drm_bufs.c:861-950 | 513 PCI buffers of 4 MiB, on any state and wherever the segments lie, leave theirs |
| DmaBufs.AppendKeepsInv | drm_bufs.c:736-743 | a call that stays in its stretch keeps indices, order, disjointness and page accounting |
| DmaBufs.LinearAppends | drm_bufs.c:687-743 | AGP and scatter/gather calls number their buffers, keep them apart and account whole pages |
| DmaBufs.PciAppends | drm_bufs.c:861-950 | and so do PCI calls, across segments |
| DmaBufs.FailureKeepsInv | drm_bufs.c:559-583 | a failed call keeps the invariant |
| DmaBufs.CallKeepsInv | drm_bufs.c:597-963 | every call whose sizes fit, successful or not, keeps it |
| DmaBufs.RunKeepsInv | drm_bufs.c:597-1120 | over any mix of AGP, PCI and scatter/gather calls every state has buffer k at index k, ranges ordered, disjoint and inside the byte count, a byte count of page size times page count, and buffer and segment totals that are the sums over all sizes |
| DmaBufs.BytesHaveOneOwner | drm_bufs.c:597-1120 | so in every state of every run a byte of the space belongs to at most one buffer, which knows its index |
| DmaAddresses.CallServes | drm_bufs.c:597-1120 | a call adds as many buffers as were asked for, each of the right order, at least as large as asked for and with its index |
| DmaAddresses.SegmentsLeast | drm_bufs.c:861-920 | a PCI call takes the least number of segments that hold its buffers |
| DmaAddresses.LinearOnBus | drm_bufs.c:687-720 | AGP and scatter/gather buffers follow each other on the bus as in the byte space, inside the range asked for |
| DmaAddresses.PciOnBus | drm_bufs.c:886-918 | if the segments of a PCI call are apart on the bus, so are all its buffers |
| DmaBufs.AgpOwned | drm_bufs.c:642-654 | the buffers of an accepted AGP request whose size fits lie in one range of AGP memory of the device |
| DmaBufs.Buffers.Enter | drm_bufs.c:655-675 | busy, order already used, count out of range, in that order; the allocation count goes up exactly on success |
| DmaBufs.Buffers.CleanupError | drm_bufs.c:559-583 | the entry counts no buffers and no segments afterwards |
| DmaBufs.Buffers.FillLinear | drm_bufs.c:687-720 | the loop builds exactly the closed-form buffers, or fails if and only if an allocation does |
| DmaBufs.Buffers.AddLinear | drm_bufs.c:677-757 | adds the buffers and totals, or leaves list and totals as they were |
| DmaBufs.Buffers.AddAgp | drm_bufs.c:597-757 | succeeds exactly under the stated conditions; failure leaves list, totals and the allocation count |
| DmaBufs.Buffers.FindZone | drm_bufs.c:643-650 | finds an owned range that holds the request if and only if there is one |
| DmaBufs.Buffers.AddSg | drm_bufs.c:966-1120 | the same for scatter/gather |
| DmaBufs.Buffers.FillPages | drm_bufs.c:879-885 | fills the page list of one segment inside its bounds |
| DmaBufs.Buffers.FillSegment | drm_bufs.c:886-918 | the inner loop builds as many buffers as the segment holds and the request still wants |
| DmaBufs.Buffers.FillPci | drm_bufs.c:861-920 | the outer loop builds exactly the closed-form buffers in the least number of segments, and its segment and page indices stay in bounds |
| DmaBufs.Buffers.Append | drm_bufs.c:736-738 | the finished buffers follow the old ones in the list |
| DmaBufs.Buffers.AddPci | drm_bufs.c:761-963 | succeeds exactly under the stated conditions; failure leaves list, totals and the allocation count |
| DmaBufs.Buffers.AddSegments | drm_bufs.c:830-963 | once admitted, succeeds if and only if every allocation does, and then adds exactly the closed-form buffers, segments and pages |
| Gem.NoFault | drm_gem.c:200-288 | no step that a thread can take in a consistent state, except the late read of an opened object's size, touches a freed object or takes a count below zero |
| Gem.ReadFaultsIff | drm_gem.c:676-682 | in every consistent state that read, which comes after the reference is dropped, touches a freed object if and only if no table entry, no close in flight and no thread's reference to it is left |
| Gem.LookupFinds | drm_gem.c:546-565 | a handle that can be looked up leads to an object that is there and has handles |
| Gem.NameFinds | drm_gem.c:666-669 | and so does a name |
| Gem.ClosingIsLive | drm_gem.c:223-224 | the warning about a handle count of zero never triggers |
| Gem.AddHandleKeeps | drm_gem.c:332-340 | creating a handle, also one whose allocation failed, keeps the counts exact |
| Gem.CloseEntryKeeps | drm_gem.c:265-277 | taking an entry out of the table keeps them, with the close in flight |
| Gem.DropHandleKeeps | drm_gem.c:220-240 | giving up a handle keeps them and, for the last one, takes the name away |
| Gem.DropKeeps | drm_gem.c:763-773 | dropping a reference keeps them |
| Gem.FreedUnreachable | drm_gem.c:763-773 | an object is freed only when no handle, no close in flight, no thread and no name leads to it |
| Gem.NameKeeps | drm_gem.c:617-631 | naming keeps names and objects in one-to-one correspondence |
| Gem.StepKeepsInv | drm_gem.c:200-362 | every locked section and every step between them keeps the invariant |
| Gem.RunKeepsInv | drm_gem.c:200-740 | every state of every interleaving satisfies it |
| Gem.FaultsOnlyOnLateRead | drm_gem.c:200-740 | whatever a thread of any run does next touches a freed object if and only if it is that late read with no entry, close in flight or reference left |
| Gem.LateRead | drm_gem.c:676-682 | a concrete run in which both handles of an opened object are closed before its opener reads the size |
| Gem.StepKeepsOpeners | drm_gem.c:654-685 | every opener still holds its reference until its handle is made |
| Gem.NothingReachableIsFreed | drm_gem.c:200-740 | in every reachable state handle counts equal table entries plus closes in flight, references are at least that, and whatever a handle or a name leads to is there and has a handle |
| Gem.NamesAreUnique | drm_gem.c:603-641 | names and named objects correspond one to one in every reachable state |
| Gem.StepKeepsIdentities | drm_gem.c:200-740 | an object keeps the size it was made with, a handle and a name lead to one object as long as they exist, and a new handle leads to the object that it was made for or whose name was opened |
| Gem.LastHandleTakesName | drm_gem.c:233-236 | closing the last handle removes that object's name and no other |
| Gem.CloseUndoes | drm_gem.c:341-359 | a failed create undoes itself completely |
| Gem.Tables.constructor | drm_gem.c:695-700 | empty tables satisfy the invariant |
| Gem.Tables.HandleFree | drm_gem.c:200-209 | the object has no name afterwards and its name is gone |
| Gem.Tables.HandleDrop | drm_gem.c:232-237 | the handle count goes down, and the last handle takes the name |
| Gem.Tables.HandleUnreference | drm_gem.c:220-240 | ends one close in flight and keeps the invariant |
| Gem.Tables.HandleDelete | drm_gem.c:250-288 | removes exactly that entry, or fails without change if there is none |
| Gem.Tables.HandleCreateTail | drm_gem.c:319-362 | adds the handle, or changes nothing at all whichever of its three steps fails |
| Gem.Tables.ObjectLookup | drm_gem.c:546-565 | the object of the handle with one more reference, or nothing |
| Gem.Tables.NameIt | drm_gem.c:617-634 | the name the object has or gets |
| Gem.Tables.FlinkIoctl | drm_gem.c:603-641 | one name per object however often it is asked for, and references are balanced |
| Gem.Tables.OpenIoctl | drm_gem.c:654-685 | a new handle for the object of that name and that object's size, or no change at all |
| Gem.Tables.ReleaseAll | drm_gem.c:707-723 | every entry of a closing file is given up |
| Gem.Tables.Release | drm_gem.c:734-740 | removes all entries of the file and no other, with the invariant kept |
| Edid.Score | drm_edid.c:1001-1010 | counts right header bytes: the full score if and only if the header is perfect |
| Edid.HeaderScore | drm_edid.c:1001-1010 | the loop computes that score |
| Edid.BlockChecksum | drm_edid.c:1021-1029 | the byte sum modulo 256 |
| Edid.BodyValid | drm_edid.c:1072-1097 | passes if and only if the bytes add up to a multiple of 256 or the block is a CEA extension, and a zero first byte comes with version 1 |
| Edid.BlockValid | drm_edid.c:1050-1112 | accepts exactly the valid blocks; a base block with enough right header bytes is repaired in place and nothing else is touched |
| Edid.IsValid | drm_edid.c:1123-1136 | accepts a record if and only if its base block and all announced extensions are valid, and leaves one with a perfect header unchanged |
| EdidBytes.OtherBlockIff | drm_edid.c:1072-1097 | a block other than a CEA extension passes if and only if its bytes, added up as plain numbers, are a multiple of 256 and a zero first byte comes with version 1 |
| EdidBytes.CeaPasses | drm_edid.c:1074-1082 | a CEA extension always passes |
| EdidBytes.BaseBlockIff | drm_edid.c:1050-1097 | a base block passes if and only if enough places of its header are right (the number asked for, or six), the block with the right header adds up, and its version is 1 |
| EdidBytes.ByteErrorRefused | drm_edid.c:1072-1082 | changing any one byte of a block that passes makes it fail, unless a CEA tag hides it |
| EdidBytes.BaseErrorRefused | drm_edid.c:1050-1097 | and so does changing any one byte behind the header of a base block |
| EdidBytes.HeaderErrorRepaired | drm_edid.c:1055-1068 | wrong header bytes are repaired to the same block as long as enough of the header is right |
| EdidBytes.ScoreCounts | drm_edid.c:1001-1010 | the score is the number of places at which the header is right |
| Edid.ExtensionsValid | drm_edid.c:1131-1134 | the loop over extensions decides all of them and changes nothing |
| Edid.AdjustedSum | drm_edid.c:1275-1277 | changing the count byte and the checksum byte together keeps the checksum |
| Edid.AdjustedOk | drm_edid.c:1275-1282 | an adjusted base block is still valid and needs no repair |
| Edid.KeptBlock | drm_edid_load.c:228-234 | every block that is kept is valid |
| Edid.CompactedBlocks | drm_edid_load.c:228-249 | the compacted record announces exactly the blocks it has, each of them a kept one |
| Edid.CompactedOk | drm_edid_load.c:228-249 | for every image with a valid base block the compacted record passes the record test |
| Edid.GoodRecordUnchanged | drm_edid_load.c:228-249 | a valid record with a perfect header is not changed by compaction |
| Edid.CompactedTwice | drm_edid_load.c:228-249 | compacting twice is compacting once |
| Edid.CompactStep | drm_edid_load.c:228-234 | copying a block down and counting it if valid makes one step of the in-order filter |
| Edid.CompactLoop | drm_edid_load.c:228-234 | the in-place loop gathers the valid blocks in order although source and target overlap in one buffer |
| Edid.AdjustBase | drm_edid_load.c:236-243 | count and checksum bytes are rewritten exactly if the count changes |
| Edid.Load | drm_edid_load.c:205-258 | for every file: an empty one passes the test of its size and its base block is read past the end; every other one fails exactly for a wrong size or an invalid base block, and otherwise gives the compacted record |
| Edid.ReadBase | drm_edid.c:1231-1243 | up to four reads of the base block, ended by a failed transfer, a valid block or zeroes at the first read |
| Edid.ReadExtension | drm_edid.c:1255-1264 | up to four reads of an extension into its place, with everything before it unchanged |
| Edid.ReadExtensions | drm_edid.c:1254-1273 | the loop gathers the valid extensions, or fails with the first failed transfer |
| Edid.GetEdid | drm_edid.c:1219-1296 | for every reader, flaky or not, returns what the retries give, and what it returns passes the record test and has exactly the blocks it announces |
| Edid.FetchOk | drm_edid.c:1219-1284 | however a display answers, a fetched record has a perfect header, passes the record test and has exactly the blocks it announces |
| EdidBytes.ExtensionIs | drm_edid.c:1255-1264 | the first of at most four reads that passes is used; a failed transfer before it ends the fetch; four bad blocks leave the extension out; one of the three is the case |
| EdidBytes.BaseIs | drm_edid.c:1231-1243 | the first of at most four reads that passes is used, repaired; without one the fetch fails |
| EdidBytes.GatherSize | drm_edid.c:1254-1273 | the fetch of the extensions fails if and only if a transfer does; otherwise it has as many blocks as were fetched well |
| EdidBytes.GatherAt | drm_edid.c:1254-1273 | every extension fetched well is in the record, in its order |
| EdidBytes.KeptAt | drm_edid_load.c:228-234 | every valid extension of a file is in the compacted record, in its order |
| EdidBytes.AdjustedElsewhere | drm_edid.c:1275-1277 | adjusting the base block changes no byte but the count and the checksum |
| EdidBytes.FetchedIsSound | drm_edid.c:1219-1284 | however a display answers, the bytes of a fetched record have the right header and version, a base block and extensions that add up except for CEA ones, and the size that they announce |
| EdidBytes.LoadedIsSound | drm_edid_load.c:205-249 | and so have those made from a file |
| Edid.BaseWasRead | drm_edid.c:1231-1243 | an accepted base block is the repaired form of a good block that one of the reads returned |
| Edid.GatherStops | drm_edid.c:1256-1259 | a failed transfer of any extension ends the whole fetch |
| Edid.StableFetch | drm_edid.c:1219-1284 | for a reader that shows one image the fetch gives the repaired base block and the in-order filter of valid extensions, or nothing |
| Edid.FetchAndLoad | drm_edid_load.c:205-249 | for every image, fetching it block by block and loading it as a file give the same bytes or both fail, and what they give passes the record test |
| HashTable.EarlyExit | drm_hashtab.c:82-87 | stopping at the first larger key misses nothing in a sorted bucket |
| HashTable.SpliceKeeps | drm_hashtab.c:119-131 | inserting where the search stopped keeps the order and adds just that entry |
| HashTable.UnlinkKeeps | drm_hashtab.c:184-186 | unlinking keeps the order and removes just that entry |
| HashTable.SearchRefines | drm_hashtab.c:73-89 | a search that stops early finds exactly what the map has |
| HashTable.InsertRefines | drm_hashtab.c:109-133 | inserting into the buckets is inserting into the map |
| HashTable.RemoveRefines | drm_hashtab.c:179-189 | removing from the buckets is removing from the map |
| HashTable.ProbesCover | drm_hashtab.c:148-155 | going round from any start visits every candidate key |
| HashTable.ProbeStep | drm_hashtab.c:150-155 | the probe is back at its start after exactly 2^bits steps |
| HashTable.CandidateOf | drm_hashtab.c:140-155 | a key tells its candidate number, unless it has wrapped around |
| HashTable.Table.constructor | drm_hashtab.c:41-56 | a new table is the empty map |
| HashTable.Table.Search | drm_hashtab.c:73-89 | stops at the entry of the key if and only if the map has the key |
| HashTable.Table.FindItem | drm_hashtab.c:165-176 | returns what the map has for the key |
| HashTable.Table.InsertItem | drm_hashtab.c:109-133 | fails without change if and only if the key is taken, otherwise extends the map |
| HashTable.Table.RemoveKey | drm_hashtab.c:179-189 | removes the key, and fails if and only if it was not there |
| HashTable.Table.JustInsertPlease | drm_hashtab.c:140-162 | takes at most 2^bits probes, fails if and only if every candidate key is taken, and otherwise inserts under the first free one in probing order |
| SetConfig.Modeset.IsEncoderUsed | drm_crtc_helper.c:110-128 | true if and only if some connector uses the encoder |
| SetConfig.Modeset.IsCrtcUsed | drm_crtc_helper.c:143-159 | true if and only if some used encoder is routed to the CRTC |
| SetConfig.Modeset.Program | drm_crtc_helper.c:305-363 | succeeds exactly if all callbacks for the CRTC's encoders and the CRTC itself do |
| SetConfig.Modeset.SetMode | drm_crtc_helper.c:267-419 | an idle CRTC is marked disabled; otherwise mode and position change, or nothing at all on failure |
| SetConfig.Modeset.DisableUnused | drm_crtc_helper.c:178-204 | unused encoders lose their CRTC, idle CRTCs their framebuffer, and the enable flags match use; use itself does not change |
| SetConfig.Modeset.Disable | drm_crtc_helper.c:422-451 | exactly the connectors that reached the CRTC are cut off and exactly the unused encoders lose theirs; it is idle afterwards and every other CRTC is used as before |
| SetConfig.Modeset.PickEncoders | drm_crtc_helper.c:572-606 | each connector of the request has its best encoder, the others keep theirs; an encoder loses its CRTC if and only if a connector of the request leaves it; fails if and only if one has none, and reports a change if and only if a connector of the request is not on or gets another encoder |
| SetConfig.Modeset.RouteEncoders | drm_crtc_helper.c:613-647 | exactly where every encoder ends: on the CRTC if its last user is in the request, off it if its last user is not, and otherwise where it was; fails if and only if some turn would leave an encoder on a CRTC that it cannot feed |
| SetConfig.Modeset.Compare | drm_crtc_helper.c:546-570 | without a change the CRTC already shows what was asked for |
| SetConfig.Modeset.FullModeset | drm_crtc_helper.c:653-675 | on failure the CRTCs are as before; on success the CRTC shows the request if it is in use, all enable flags match use, the other CRTCs keep mode and position, and exactly the connectors of the request are switched on; fails if and only if the CRTC is in use and somebody refuses |
| SetConfig.Modeset.Flip | drm_crtc_helper.c:676-687 | shows the new framebuffer and position, or leaves the CRTC as it was; every other CRTC stays |
| SetConfig.Modeset.Arrange | drm_crtc_helper.c:546-651 | ends with the plan of the call: what is routed, whether it goes on to the hardware, and whether it needs a full mode set; without a change the CRTC already shows the request |
| SetConfig.Modeset.SwitchOn | drm_crtc_helper.c:669-673 | switches on exactly the connectors given, and changes no encoder |
| SetConfig.Modeset.Restore | drm_crtc_helper.c:695-710 | encoders and connectors are as saved, and only the enabled flag may be refreshed |
| SetConfig.Modeset.Show | drm_crtc_helper.c:466-715 | fails if and only if the state could not be saved, an encoder is missing or not possible, or the hardware refuses, and then leaves the configuration it found except for a refreshed enabled flag; a successful call has the chosen encoders, the stated routing, shows the request on a CRTC in use, and changes another CRTC only if nothing outside the request feeds it any more or its flag was wrong |
| SetConfig.Modeset.Set | drm_crtc_helper.c:466-715 | the same for every request; a failed call leaves every encoder, connector and CRTC as before if the enabled flag matched use on entry; without a framebuffer the CRTC ends idle, disabled and empty, exactly the connectors that fed it are cut off, and every other CRTC is used as before |
| SetConfig.StaleFlagIsLost | drm_crtc_helper.c:695-710 | a concrete request on a device with one connector that fails and leaves disabled a CRTC that was marked enabled |
| SetConfig.AllOrNothingIff | drm_crtc_helper.c:466-715 | on every device with a connector, all failing calls for a CRTC leave the configuration exactly as it was if and only if its enabled flag matched its use on entry |
| SetConfig.FailingCall | drm_crtc_helper.c:582-606 | for every such configuration there is a legal request that fails after a mode set became necessary |
| SetConfig.RestoreTouchesEnabled | drm_crtc_helper.c:706-710 | setting the old mode again, whose source is the CRTC's own field, can change nothing but the enabled flag |
| SetConfig.CutIsolates | drm_crtc_helper.c:422-448 | cutting off one CRTC's connectors leaves the use of every other CRTC alone |
| SetConfig.SoleUsersRouted | drm_crtc_helper.c:613-647 | if no two connectors share an encoder, every connector of a successful request is routed to its CRTC |
| SetConfig.UnusedDoNotCount | drm_crtc_helper.c:185-191 | taking unused encoders off their CRTCs changes the use of none |
| SetConfig.UsedElsewhereIff | drm_crtc_helper.c:572-647 | another CRTC is in use after the call if and only if a connector outside the request feeds it through an encoder that no connector of the request has or takes |
| SetConfig.OthersKeepShowing | drm_crtc_helper.c:466-715 | a CRTC that is fed like that, and whose flag is right, is not touched by the call |
| SetConfig.InPlaceOnlyFlips | drm_crtc_helper.c:546-651 | a request in the present mode, for connectors that are in place, and for a framebuffer of the same format needs no full mode set unless the driver cannot flip |
| SetPlans.PlanIs | drm_crtc_helper.c:572-651 | a call gets to the hardware if and only if the state could be saved, every connector of the request has an encoder and every turn leaves its encoder on a CRTC it can feed; and where every connector and encoder then is |
| SetPlans.FlipKeepsRest | drm_crtc_helper.c:546-651 | a call without a full mode set found mode, framebuffer format, encoders and connectors as they were asked for |
| SetPlans.FailsIff | drm_crtc_helper.c:466-715 | a call fails if and only if it cannot be routed, somebody refuses the new mode on a CRTC in use, or the flip is refused |

## Left out

- Crc: the variable that masks one bit of the current byte is dropped, because the shift count carries the same information.
- SidebandMsg.FragmentThenReassemble: reads of the registers are taken to succeed, and the data checksum is computed but not compared on receive, as in the code, so nothing is claimed about corrupted payloads. The sizes of the receiver's buffers and the byte that counts the message come from a header that is not part of this model.
- SidebandMsg.Receiver.GetOne: what memory holds after a buffer is overrun is not described, and a read size of zero bytes, for which the loop of reads would not end, is excluded by its precondition.
- Path addresses: the model takes the relative address bytes as given; building and looking up addresses of nested branch devices is not modelled.
- DownQueue: up requests and up replies, which share the slot assignment; message bodies; more than one matched reply at a time; waking of waiters.
- DownQueue.RunKeepsInv: a run ends where a reply is written into a freed message, as FinishKeepsInvIff and DeliverySafeIff say exactly; message identities are not used again.
- Payloads: a bound on the sum of all slots, because the code compares each request with a number of slots that it never reduces; payload bandwidth arithmetic; MST teardown.
- Payloads.RunKeepsInv: a channel is freed only once the hardware has no slots for it, as DeallocateKeepsInvIff says exactly.
- HwLock: changes of the lock word by user space outside the kernel, signals, wait queues and removal of the lock; a compare-and-exchange loop is taken at its successful exchange.
- PickCrtcs: cloned configurations, connector probing and the construction of modes; mode equality is an abstract equivalence. Fewer than 32 connectors, so that the bit mask of configured ones does not wrap, and successful allocation of the search arrays are assumed.
- Atomic: lock back-off and its retry, allocation failures while staging, asynchronous commits, properties, the check callbacks of planes and CRTCs, and the hardware side of a commit. Fewer than 32 planes, so that plane masks are sets, is assumed.
- AtomicRouting.RunKeepsRouting: runs contain no update in which two connectors pick one encoder, as CheckUniqueIff says exactly.
- AtomicPlanes: one update is open at a time and is committed only after a check that succeeded and that nothing but planes was set after, as drm_atomic_commit does; and a driver has either both of the prepare and cleanup callbacks for framebuffers or neither.
- AtomicPlanes.StepKeepsInv: a second check of the same update is not modelled, and what a failing check leaves is any update with more CRTCs staged and flagged, which includes what AtomicRouting.AtomicState.Check leaves.
- AtomicPlanes.AlwaysConsistent: runs contain no check in which two connectors pick one encoder, as CheckUniqueIff says exactly.
- DmaBufs: contents of the PCI page list, the mapping of buffers to user space, maps and their handles, and marking or freeing buffers. The limits on orders and the page size of 4096 come from headers that are not part of this model. An offset below zero stands for the unsigned number it wraps to.
- DmaBufs.RunKeepsInv: successful calls whose byte count does not fit an int are excluded, as LinearStretchIff and PciStretchIff say exactly.
- Gem.LateRead: the freed object's identity is free to be taken by a new object, and the read then returns that object's size; the model calls it a fault only if no object has the identity.
- Gem: mappings, dma-buf import and export, page pinning; a file that is being closed is used by no other thread.
- Edid: parsing of modes from a record, the built-in records, the counters of bad records, and failing reallocations, after which the fetch gives up while the load keeps its larger buffer.
- HashTable.Table.JustInsertPlease: fewer than 32 bits are required, because the mask is computed by shifting an int; keys are not taken modulo the width of a long.
- HashTable: the hash function itself, which is any function into the buckets; reading beside a writer; removal by item.
- SetConfig: property restoration of driver-private data, power states below on and off, and the adjusted hardware mode. Callbacks do not change encoders, connectors or CRTCs themselves.
- Mode tables and timing generation, AUX and I2C transfers, debug and sysfs files, 32-bit ioctl copies, AGP and cache maintenance, device registration, the memory manager and all drivers.
