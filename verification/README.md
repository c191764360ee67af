# Verified model of serverkit

A Dafny model of the parts of serverkit on which everything else in it rests, with machine-checked
proofs: the lock-free pipe and the mailbox, the byte buffers, packets and RPC on top of each other,
the two hash functions, the calendar and the id generator, and the timer queue.  Run
`dafny verify dfyconfig.toml` with Dafny 4.11 in this directory.

## What is modelled

**Pipe and mailbox.**  `YPipe.dfy` gives `YPipe`/`YQueue` as steps of two threads, one step for each
access to shared memory: the word `c_`, the spare slot, a chunk's links, an item.  Chunks live in an
explicit heap; addresses are reused after `free`, pointers are compared as addresses, and following or
freeing a pointer to a chunk that is not allocated is the outcome `Fault`.  `AtomicQueue.dfy` is the
queue it should look like.  `YPipeProof.dfy` has the invariant (slot numbers behind the addresses,
ownership of chunks, what each thread knows where) and a simulation lemma for every step;
`YPipeRuns.dfy` draws the conclusions for all schedules, all lengths and all N >= 1, and ties every
answer to the call it answers.
`YPipeObject.dfy` is the same code as a class, one operation at a time, tied both to the steps and to
the atomic queue.  `Mailbox.dfy` puts any number of senders, the lock, the eventfd and the loop of
`Worker::In` around the pipe, keeping its steps; `MailboxProof.dfy` proves the wake-up protocol,
`MailboxRuns.dfy` that what the threads pass to `Send` is what arrives.

**Bytes, packets, RPC.**  `Buffers.dfy` has the block lists and the pool as classes over arrays, and
any number of lists sharing one pool.  `Packets.dfy` is the wire format and the parser on byte
strings; `PacketParser.dfy` is the parser as written, over block lists.  `Rpc.dfy` says what channel
and session do with a call, a packet and an answer; `RpcObjects.dfy` is the code of both classes, down
to the block lists; `RpcSystem.dfy` joins one channel and one session by two byte streams that deliver
in any pieces, with calls from both sides and services that answer in any order, and proves the
end-to-end results for every run; `RpcRuns.dfy` ties them to the calls made and answers given, and
shows that every open run can be completed.

**Hashes.**  `Words.dfy` names the operators on 64-bit words (so that proofs use laws instead of
single bits) and relates bytes to words.  `Murmur.dfy` is `MurmurHash64A`, `Lookup8.dfy` is `hash`,
`hash2` and `hash3`; all are proved against one recursive function of the key, whose inverses show
what the hashes tell apart.  `HashValues.dfy` has values for given keys.

**Calendar and ids.**  `Calendar.dfy` is `Localtime` with checked 32-bit arithmetic, against the
Gregorian calendar and the formula of section 4.16 of POSIX.1-2017 XBD.  `GlobalId.dfy` is the
generator, with the theory of odd strides modulo 2^k.

**Timers.**  `Timers.dfy` is the multimap and the map as values; `TimerRuns.dfy` proves what every run
keeps and decides when `CancelTimer` works; `TimerHistory.dfy` says, from the calls alone, exactly when
each timer fires; `TimerCalls.dfy` has rules for callers; `Poller.dfy` is the code.

## Main results

- The pipe refines an atomic queue under every interleaving, never touches unallocated memory, and
  its destructor leaves nothing allocated (`YPipeRuns.Refinement`, `FirstInFirstOut`,
  `OwnedAndDistinct`, `AllFreed`); every operation of either thread gets the answer to that very call,
  within six steps of its own (`EveryCallAnswered`, `EveryCallReturns`).
- Exactly one wake-up token exists at every moment, no message is lost, a successful `Recv` always has
  a message, and once all senders have returned the receiver alone gets everything
  (`MailboxProof.WakeUpToken`, `NoLostMessage`, `EverythingArrives`); what it gets is an interleaving of
  exactly what the threads passed to `Send` (`MailboxRuns.CallsHandedOn`, `EveryCallArrives`).
- Any way of cutting a packet stream yields exactly the packets complete so far
  (`Packets.StreamRoundTrip`), and `RecvPacket` on block lists does what the byte-string parser does.
- The callback of a channel's call gets the answer that the service gave to that very call, at most
  once, and nothing is lost (`RpcSystem.EndToEnd`, `NothingLost`, `WireOrder`, `EachGuidOnce`); from every
  open state all of it can be brought to an end (`RpcRuns.QuietReachable`); a call
  that a session makes is never answered, because channels drop requests
  (`RpcSystem.SessionCallsWait`).
- Every aligned block of a key determines the Murmur hash one to one; every aligned 24-byte block
  determines the final state of `hash` one to one; `hash3` and `hash2` agree with `hash`.
- `Localtime` returns the one valid date with the right POSIX seconds, for every time from 1970 on that
  fits, and it is decided for which other times it does.
- Every id of a run is known from the numbers drawn (`GlobalId.EveryId`); the ids are distinct exactly
  if these numbers differ above their twelve lowest bits.
- A timer fires in a turn exactly if it is due then by the calls made so far
  (`TimerHistory.FiresExactly`); a one-shot is pending, fired once or cancelled once, never fires early
  and never late by more than a turn; `CancelTimer` removes the right timer exactly under a stated
  condition, and when that fails the two maps no longer agree; callers that cancel permanent timers
  only before they first fire never miss (`TimerCalls.CarefulNeverMisses`).

## Where code and comments differ

- src/base/ypipe.h:105-107 says `r_` should never be NULL before shutdown.  A check makes it NULL
  exactly if `c_` is NULL, that is, if the reader looks again while it is asleep
  (`YPipeRuns.NullExactly`, with `SleepingReaderLooksAgain` as a run in which it happens).  The mailbox,
  the only user of the pipe, never does: there `r_` is never NULL (`MailboxProof.ReaderNeverNull`).
- src/rpc/rpc_session.cc:75-82 runs the closure even if the response cannot be parsed;
  src/rpc/rpc_channel.cc:79-88 does not.  The model keeps the difference.
- src/core/poller.cc:94-95 re-inserts a permanent timer under a new key and leaves `entry->expire`
  alone, which `CancelTimer` relies on: see `TimerRuns.CancelExactly`, `TimerRuns.CancelBreaks` and
  `TimerRuns.CancelWrong`.
- src/base/buffer.h:112 takes any n; `ReadAdvance` loses the list's shape for n beyond the first block,
  which `Send` in src/base/net.cc:213-254 can pass: see `Buffers.BufferList.ReadAdvance` for the condition, and
  `Buffers.DropTooMuch` for a list on which it happens.

## Model

| member | source | states |
|---|---|---|
| YPipeProof.Simulation | src/base/ypipe.h:46-127 | every step of either thread keeps the invariant, does not fault, and is a step of the atomic queue or invisible |
| YPipeProof.StoreSim | src/base/ypipe.h:46-54 | storing an item overwrites only the terminator's slot, which no live slot shares |
| YPipeProof.AllocSim | src/base/yqueue.h:90-93 | a new chunk may have the address of any freed one without confusing live pointers |
| YPipeProof.FlushCasSim | src/base/ypipe.h:69-90 | Flush's compare-and-swap releases exactly the complete items, or finds the reader asleep, never mistaking a recycled address for w_ |
| YPipeProof.CheckSim | src/base/ypipe.h:93-113 | CheckRead finds an item exactly if the queue has one, and falls asleep atomically with finding none |
| YPipeProof.NoAba | src/base/yqueue.h:68-142 | two live slots have the same address only if they are the same slot |
| YPipeProof.InitRep | src/base/ypipe.h:24-32 | a new pipe is the empty queue with an awake reader |
| YPipeRuns.Refinement | src/base/ypipe.h:46-127 | for every schedule and N >= 1: no step touches memory that is not allocated, and the answers are those of an atomic queue |
| YPipeRuns.FirstInFirstOut | src/base/ypipe.h:42-64 | items read, then those queued, are the complete flushed items in order; incomplete items are never among them; UnWrite removes the newest incomplete one |
| YPipeRuns.EveryCallAnswered | src/base/ypipe.h:46-127 | for every schedule, each thread's answers, then at most one operation still open, are those of the calls it made, one for one in order: a Write is answered as that item with that flag, a Flush by its answer, a Read by an item or nothing |
| YPipeRuns.EveryCallReturns | src/base/ypipe.h:46-127 | at every point of every schedule, whatever the other thread is in the middle of, an open operation gets its answer after at most five (writer) or six (reader) steps of its own thread |
| YPipeRuns.Conservation | src/base/ypipe.h:46-127 | the atomic queue neither loses, duplicates nor reorders items over any sequence of operations |
| YPipeRuns.OwnedAndDistinct | src/base/yqueue.h:79-142 | at every point the slots form the linked list from begin_chunk_ to end_chunk_; each allocated chunk is in it, in the spare slot or in one thread's hand, and only there; front <= r <= w <= f <= back; live addresses are equal exactly if the slots are |
| YPipeProof.CheckNull | src/base/ypipe.h:93-113 | a check makes r_ NULL if and only if c_ is NULL when it starts |
| YPipeRuns.NullExactly | src/base/ypipe.h:93-113 | after every schedule: a step makes r_ NULL if and only if it is a check that finds c_ NULL; every other step leaves r_ alone |
| YPipeRuns.SleepingReaderLooksAgain | src/base/ypipe.h:105-107 | a run in which that happens: a new pipe, checked twice |
| MailboxProof.ReaderNeverNull | src/base/ypipe.h:105-107 | in every reachable state of a mailbox r_ is not NULL |
| YPipeRuns.AllFreed | src/base/yqueue.h:51-64 | after any schedule the destructor frees every chunk, each once |
| YPipeObject.YPipeObject.constructor | src/base/ypipe.h:24-32 | a new object is the empty queue |
| YPipeObject.YPipeObject.Write | src/base/ypipe.h:46-54 | appends the item; a complete one completes the pending items |
| YPipeObject.YPipeObject.AppendChunk | src/base/yqueue.h:83-96 | the new end chunk is the spare one or a fresh one, linked both ways |
| YPipeObject.YPipeObject.UnWrite | src/base/ypipe.h:58-64 | takes back the newest incomplete item, or says there is none |
| YPipeObject.YPipeObject.UnPushEnd | src/base/yqueue.h:118-125 | moves the end back, freeing the chunk it leaves |
| YPipeObject.YPipeObject.Flush | src/base/ypipe.h:69-90 | releases the complete items and returns false exactly if the reader slept and there was something to release |
| YPipeObject.YPipeObject.CheckRead | src/base/ypipe.h:93-113 | true exactly if an item can be read; false puts the reader to sleep |
| YPipeObject.YPipeObject.Read | src/base/ypipe.h:117-127 | takes the oldest released item, or says there is none |
| YPipeObject.YPipeObject.Pop | src/base/yqueue.h:129-142 | the slot is left, a used-up chunk becomes the spare one, and the previous spare one is freed |
| YPipeObject.YPipeObject.Destroy | src/base/yqueue.h:51-64 | frees everything that is allocated |
| MailboxProof.Preserved | src/core/mailbox.cc:19-59 | every step of any sender or of the receiver keeps the protocol invariant and never lets two threads into one end of the pipe |
| MailboxProof.WakeUpToken | src/core/mailbox.cc:11-59 | always exactly one of: c_ is NULL, one sender owes a signal, the eventfd is readable, the receiver is active; the unchecked Read after a signal succeeds |
| MailboxProof.NoLostMessage | src/core/worker.cc:35-47 | messages received, then those in the pipe, are all messages in lock order; a flushed message not yet received has the receiver active, or a signal pending or owed; when Worker::In has returned the receiver is not active |
| MailboxProof.EverythingArrives | src/core/mailbox.cc:32-59 | from every reachable state with all senders returned, the receiver alone receives all that was sent |
| MailboxRuns.CallsHandedOn | src/core/mailbox.cc:19-30 | for every schedule and thread, the messages it passed to Send are, in order, those it has put into the pipe, then the one it holds before or in pipe_.Write |
| MailboxRuns.SendersReturn | src/core/mailbox.cc:19-30 | from every reachable state the senders alone can bring every call of Send to its end |
| MailboxRuns.EveryCallArrives | src/core/mailbox.cc:19-59 | from every reachable state, without a new call, the senders can return, and the receiver alone then gets an interleaving of exactly what the threads passed to Send, each thread's messages in its order |
| MailboxProof.ReceiverProgress | src/core/mailbox.cc:32-59 | while a message is in the pipe, each step of the receiver gets it closer to one or receives one |
| Buffers.BufferList.Write | src/base/buffer.cc:47-69 | appends all n bytes and returns n |
| Buffers.BufferList.Read | src/base/buffer.cc:18-45 | removes and delivers the first min(n, readable) bytes; the blocks read out, and only they, go back to the pool, once each |
| Buffers.BufferList.WriteAdvance | src/base/buffer.cc:86-97 | n bytes of the current block become readable; a filled block gets a fresh successor |
| Buffers.BufferList.ReadAdvance | src/base/buffer.cc:71-84 | drops n readable bytes; a block read out goes back, and the link followed is the next block of the list; the list stays intact if and only if the n bytes are all in the first block |
| Buffers.DropTooMuch | src/base/buffer.cc:71-84 | a list of two blocks that ReadAdvance over both breaks |
| Buffers.BufferList.ReadableSize | src/base/buffer.cc:99-102 | write_size_ - read_size_ is the number of readable bytes |
| Buffers.BufferList.WriteableSize | src/base/buffer.cc:104-107 | the current block always has room, so Write makes progress |
| Buffers.BufferList.CurrentBufferReadSize | src/base/buffer.cc:109-117 | never more than is readable, and something if anything is, so Read makes progress |
| Buffers.BufferList.constructor | src/base/buffer.h:75-82 | a new list is empty and takes one block from the pool |
| Buffers.ObjectList.Get | src/base/object_pool.h:39-47 | the oldest free block, or the first of 100 new ones |
| Buffers.ObjectList.Free | src/base/object_pool.h:49-53 | the block is cleared and goes to the end of the free list |
| Buffers.ObjectList.Allocate | src/base/object_pool.h:56-65 | adds 100 new distinct blocks |
| Buffers.Buffer.Reset | src/base/buffer.h:38-41 | clears the bytes and leaves the link |
| Buffers.WriteTo | src/base/buffer.cc:47-69 | of any lists sharing a pool, the others keep their bytes, and blocks stay pairwise disjoint |
| Buffers.ReadFrom | src/base/buffer.cc:18-45 | the same for Read: a block given back is nobody else's |
| Buffers.NewList | src/base/buffer.h:75-82 | a list can be added without disturbing the others |
| Packets.BytesRoundTrip | src/rpc/packet_parser.cc:42-45 | the bytes of a field read back give the field |
| Packets.MetaRoundTrip | src/rpc/packet.h:18-49 | reading a header gives the packet it was written from |
| Packets.WireBytes | src/rpc/packet_parser.cc:88-93 | a packet is the byte 0x2B, guid and method id in 8 bytes and size in 4, lowest byte first, then the content |
| Packets.WrongMagic | src/rpc/packet_parser.cc:41-56 | a header with another first byte is dropped whole and yields nothing; if packets follow it, the parser is in step with them |
| Packets.RecvInSync | src/rpc/packet_parser.cc:20-86 | one RecvPacket yields the next packet of the stream, or nothing because it is incomplete, and stays in step either way |
| Packets.DrainNotDone | src/rpc/packet_parser.cc:20-22 | the parser is never in RECV_DONE between calls |
| Packets.StreamRoundTrip | src/rpc/packet_parser.cc:20-105 | for any well-formed packets and any cutting of their bytes, the packets received are exactly those whose last byte has arrived, in order |
| PacketParsers.PacketParser.RecvPacket | src/rpc/packet_parser.cc:20-86 | on block lists: the byte-string parser's answer, state and rest; no read is short; other lists are untouched |
| PacketParsers.PacketParser.ReadMeta | src/rpc/packet_parser.cc:42-45 | the four reads decode the first 21 bytes |
| PacketParsers.PacketParser.SendPacket | src/rpc/packet_parser.cc:88-105 | appends exactly the packet's encoding; other lists are untouched |
| RpcObjects.RpcChannel.CallMethod | src/rpc/rpc_channel.cc:110-152 | by socket status, field by field: nothing when closed; the next guid and the filed context otherwise; the packet is sent when connected and queued before that; the first call starts connecting |
| RpcObjects.RpcChannel.PushRequestToQueue | src/rpc/rpc_channel.cc:31-45 | allocates the next guid, queues the packet and files the context |
| RpcObjects.RpcChannel.Connect | src/core/socket.cc:50-69 | starts connecting once; a refusal closes the socket |
| RpcObjects.RpcChannel.OnConnect | src/rpc/rpc_channel.cc:93-104 | all queued packets go out in order; after an error they stay queued |
| RpcObjects.RpcChannel.Writable | src/core/socket.cc:121-124 | a connecting channel becomes connected, its queue is empty and the queued packets are appended to the output in order; any other channel is left alone |
| RpcObjects.RpcChannel.OnRead | src/rpc/rpc_channel.cc:52-91 | handles exactly the packets complete in the read list, finishing the contexts they answer |
| RpcObjects.RpcSession.OnRead | src/rpc/rpc_session.cc:49-84 | handles exactly the packets complete in the read list |
| RpcObjects.RpcSession.RunService | src/rpc/rpc_session.cc:91-114 | an acceptable request becomes one pending job, any other is dropped |
| RpcObjects.RpcSession.OnResponse | src/rpc/rpc_session.cc:144-151 | the answer goes out under the guid of the job that is answered, which is then gone |
| RpcObjects.RpcSession.CallMethod | src/rpc/rpc_session.cc:116-142 | sends the call under the session's next guid, unless closed |
| Rpc.HearsNext | src/rpc/rpc_channel.cc:52-91 | the loop over RecvPacket handles one packet at a time, whatever was buffered |
| Rpc.ServesNext | src/rpc/rpc_session.cc:49-84 | the same for the session |
| Rpc.ChannelTakes | src/rpc/rpc_channel.cc:52-91 | of any packets in any order: requests are dropped, and each context whose guid is answered is finished once, by the first response to it, and is gone; the others stay |
| Rpc.SessionTakes | src/rpc/rpc_session.cc:49-114 | of any packets in any order: each acceptable request becomes one job, in order, and responses finish contexts in the same way, always running the closure |
| RpcSystem.ChannelReads | src/rpc/rpc_channel.cc:52-91 | a call of OnRead is a series of single reading steps of the system |
| RpcSystem.SessionReads | src/rpc/rpc_session.cc:49-84 | the same for the session |
| RpcSystem.TakeFlows | src/rpc/packet_parser.cc:20-86 | over a reliable stream RecvPacket yields the next packet sent or nothing |
| RpcSystem.ServedOnce | src/rpc/rpc_session.cc:91-151 | no request is answered twice |
| RpcSystem.NextReply | src/rpc/rpc_channel.cc:67-81 | a response that arrives always finds its context |
| RpcSystem.StepKeeps | src/rpc/rpc_channel.cc:31-152 | every call, connection, delivery, answer and read keeps the system invariant |
| RpcSystem.WireOrder | src/rpc/rpc_channel.cc:31-45 | guids sent, then those queued, are 1, 2, ..., allocate_guid_, each with its call's method and bytes; a connected channel queues nothing |
| RpcRuns.AsCalled | src/rpc/rpc_session.cc:116-142 | for every run: the calls with a guid are those made through the channel while it was not closed, the answers served those given, each for its job, and the packets with a method id sent to the client are the session's calls with guids 1, 2, ..., its method, bytes and context |
| RpcRuns.StatusSteps | src/core/socket.cc:50-69 | the first call makes an idle channel connecting or, if refused, closed; becoming writable makes it connected; nothing else changes the status |
| RpcRuns.ConnectSends | src/core/socket.cc:121-124 | after any run, when a connecting socket becomes writable the channel is connected, its queue empty, and exactly the packets of all calls made so far are sent |
| RpcSystem.EndToEnd | src/rpc/rpc_channel.cc:52-91 | each context is finished at most once, with the answer the service gave to the request of that guid; its closure runs if and only if that answer can be parsed |
| RpcSystem.EachGuidOnce | src/rpc/rpc_channel.cc:67-89 | every guid allocated is waiting, or finished, and not both |
| RpcSystem.NothingLost | src/rpc/rpc_session.cc:91-114 | when nothing is on its way, exactly the calls that the server refused are still waiting |
| RpcRuns.QuietReachable | src/rpc/rpc_channel.cc:52-152 | from every reachable state whose channel is connecting or connected, without a new call, everything can come to rest, and then exactly the calls wait whose request the server could not use |
| RpcSystem.SessionCallsWait | src/rpc/rpc_channel.cc:61-64 | in every run the contexts of all calls made by the session are still waiting |
| Words.LowInjective | src/base/hash.cc:19-42 | little-endian words tell byte strings of one length apart |
| Words.LowStore | src/util/lookup8.cc:223-225 | a word stored and loaded again is itself |
| Murmur.ScaleInverse | src/base/hash.cc:14-14 | the multiplier 0xc6a4a7935bd1e995 has the inverse 0x5f7a0ea7e59b19bd modulo 2^64 |
| Murmur.SmearTwice | src/base/hash.cc:46-48 | x ^ (x >> 47) is its own inverse |
| Murmur.MixedInverse | src/base/hash.cc:22-31 | a pass of the loop can be undone, given its block |
| Murmur.BetweenInverse | src/base/hash.cc:22-31 | between any two states there is exactly one block |
| Murmur.MurmurHash64A | src/base/hash.cc:12-51 | computes the recursive hash of full blocks, tail and finalisation |
| Murmur.HashBytes | src/base/hash.cc:53-56 | the same with the seed 0xbeef |
| Murmur.BlockBijective | src/base/hash.cc:22-31 | with the rest of the key fixed, each of the 2^64 hashes is that of exactly one value of any aligned block |
| Murmur.BlockInjective | src/base/hash.cc:12-51 | keys that differ only within one aligned block have different hashes |
| Murmur.TailInjective | src/base/hash.cc:33-44 | keys of one length that differ only in the tail have different hashes |
| Murmur.ShortKeys | src/base/hash.cc:12-51 | keys of one length of at most 8 bytes have equal hashes only if they are equal |
| Murmur.SeedBijective | src/base/hash.cc:17-17 | with the key fixed, each hash is that of exactly one seed, which is xor-ed with the length times the multiplier |
| HashValues.MurmurKnown | src/base/hash.cc:12-56 | the value for the 21 bytes 1, 2, ..., 21 with the seed 0xbeef, as the C code computes it |
| Lookup8.MixInverse | src/util/lookup8.cc:43-57 | mix64 is a bijection on triples |
| Lookup8.Mix64 | src/util/lookup8.cc:43-57 | the macro computes the four rounds that MixInverse inverts |
| Lookup8.HashKey | src/util/lookup8.cc:88-142 | hash is the recursive function of the key, for every length and level |
| Lookup8.HashFast | src/util/lookup8.cc:195-264 | hash3 gives what hash gives, aligned or not |
| Lookup8.HashWords | src/util/lookup8.cc:153-184 | hash2 over n words gives what hash gives for their 8n bytes |
| Lookup8.BlockBijective | src/util/lookup8.cc:97-107 | with the rest fixed, each final (a,b,c) comes from exactly one value of any aligned 24-byte block |
| Lookup8.BlockInjective | src/util/lookup8.cc:97-107 | keys that differ only in one aligned 24-byte block end in different states |
| Lookup8.TailInjective | src/util/lookup8.cc:109-139 | keys of one length that differ only in the last partial block end in different states |
| Lookup8.LevelInjective | src/util/lookup8.cc:88-94 | different levels end in different states |
| Lookup8.ShortKey | src/util/lookup8.cc:88-112 | for a key below 8 bytes: a is the level plus the key, b the level, c the golden ratio plus the length, mixed once |
| HashValues.KnownLongHash | src/util/lookup8.cc:88-142 | the value for the 71 bytes 1, 2, ..., 71 at level 7, as the C code computes it: two blocks and a last part of 23 |
| Calendar.Localtime | src/util/time.cc:31-56 | for every time: a valid Gregorian date with POSIX seconds t + 28800 if and only if the minutes fit an int and t is from 1970 on, or a whole hour from eight hours before, or a local midnight; then the only such date; no operation leaves the 32-bit range |
| Calendar.Date | src/util/time.cc:46-55 | the closed form gives the month, day and year of every day number that can occur, also before 1970 |
| Calendar.DateCorrect | src/util/time.cc:46-55 | the divisions by 146097, 1461 and 153 recover century, year and month exactly |
| Calendar.OnlyDate | src/util/time.cc:31-56 | two valid dates with the same POSIX seconds are equal |
| GlobalId.IdGenerator.NewID | src/util/global_id.cc:50-59 | one step of the generator, with a reset when the batch is used up; the id is upper_bits_ or-ed with lower_bits_ |
| GlobalId.IdGenerator.ResetFields | src/util/global_id.cc:85-97 | upper_bits_, lower_bits_ and increment_ are taken from the two draws by the masks of the code, and 4096 ids remain |
| GlobalId.ResetIs | src/util/global_id.cc:85-97 | on 64-bit numbers, upper_bits_ is the first draw & ~0xfff, lower_bits_ the first draw & 0xfff, increment_ the second & 0xfff, | 1 |
| GlobalId.NextIs | src/util/global_id.cc:50-59 | lower_bits_ becomes (lower_bits_ + increment_) & 0xfff and the id is upper_bits_ or-ed with lower_bits_ |
| GlobalId.CycleReaches | src/util/global_id.cc:92-94 | an odd stride reaches every residue modulo 2^k |
| GlobalId.CycleInjective | src/util/global_id.cc:92-94 | and none twice within 2^k steps |
| GlobalId.RunIs | src/util/global_id.cc:50-59 | the state after any number of calls |
| GlobalId.EveryId | src/util/global_id.cc:50-97 | every id of every run: id / 4096 is that of the first number drawn for its batch, and id % 4096 is that number plus the odd stride times the place in the batch |
| GlobalId.BatchIsPermutation | src/util/global_id.cc:44-59 | the 4096 ids after a reset are the number drawn with its twelve lowest bits replaced by 0..4095, each exactly once |
| GlobalId.AllDistinct | src/util/global_id.cc:50-97 | the ids of a run of any length are all different if and only if the numbers drawn for its batches differ above the twelve lowest bits |
| Pollers.Poller.AddTimer | src/core/poller.cc:25-35 | the timer with expiry now + timeout, its event and kind, enters both maps under the next id, behind the timers that expire no later and before all others; the maps go on agreeing |
| Pollers.Poller.CancelTimer | src/core/poller.cc:37-55 | what the search finds is erased, or the call is undefined; on maps that agree, it succeeds and they go on agreeing if and only if the timer is reachable |
| Pollers.Poller.ExecuteTimers | src/core/poller.cc:57-100 | fires the events of exactly the timers with keys up to now, in order, takes them out of or back into the queue, returns 100 or the gap to the next key, and the maps go on agreeing; undefined if and only if a due timer's entry was deleted |
| Pollers.Poller.FireDue | src/core/poller.cc:64-80 | exactly the events of the due timers are collected, in order of expiry, unless one of them is a deleted entry |
| Pollers.Poller.TakeOut | src/core/poller.cc:82-97 | erasing and re-inserting one by one puts every due timer where re-inserting into the rest does |
| TimerRuns.DueExactly | src/core/poller.cc:70-80 | a timer is fired if and only if its key is not after now |
| TimerRuns.ExecutedAgrees | src/core/poller.cc:57-100 | executeTimers keeps the two maps in agreement |
| TimerRuns.ExecutedSlots | src/core/poller.cc:82-97 | afterwards the queue has the timers not due, and the due permanent ones at now + timeout |
| TimerRuns.DroppedIds | src/core/poller.cc:88-91 | exactly the due one-shots leave the id map |
| TimerRuns.PollUntilFirst | src/core/poller.cc:59-75 | the poll time is 100 if every timer is due, and otherwise the gap to the first that is not if and only if that is below 2^31 ms |
| TimerRuns.AddedAgrees | src/core/poller.cc:25-35 | AddTimer keeps the maps in agreement |
| TimerRuns.CancelExactly | src/core/poller.cc:37-55 | CancelTimer removes its timer and no other if and only if no timer before it has a key after entry->expire; in particular whenever its key still is entry->expire |
| TimerRuns.CancelBreaks | src/core/poller.cc:37-55 | otherwise the call is undefined or leaves the maps in disagreement |
| TimerRuns.CancelWrong | src/core/poller.cc:92-95 | a re-armed timer for which CancelTimer removes another timer |
| TimerRuns.EveryRun | src/core/poller.cc:25-100 | in every run without a CancelTimer that misses, the maps agree, and each one-shot is pending, fired once not before its time, or cancelled once |
| TimerRuns.OnlyCancelBreaks | src/core/poller.cc:25-100 | every other run has a first CancelTimer whose timer is not reachable, and that call breaks the maps' agreement or is undefined |
| TimerRuns.ExecutedProper | src/core/poller.cc:57-100 | even after a CancelTimer that missed, no entry gets into two slots and the order is kept |
| TimerCalls.CarefulNeverMisses | src/core/poller.cc:25-100 | callers that cancel one-shots, and permanent timers only before they first fire, never miss a timer |
| TimerCalls.PollExact | src/core/poller.cc:59-75 | with int timeouts that are not negative and a clock that does not go back, the poll time is never cut off: 100, or the gap to the first timer not due |
| TimerRuns.OnTime | src/core/poller.cc:57-100 | after a turn at `now`, each one-shot due by then has fired exactly once unless cancelled |
| TimerHistory.AsCalled | src/core/poller.cc:25-35 | the k-th call of AddTimer sets a timer with id k, expiry now + timeout, and its event and kind; only a call of CancelTimer cancels it; it fires only in a turn of the loop |
| TimerHistory.FiresExactly | src/core/poller.cc:57-100 | after any run, a turn at `now` fires a timer once if it was not cancelled, is permanent or has not fired, and is due: now + timeout of its AddTimer, or timeout after it last fired; otherwise not at all |
| TimerHistory.OneShot | src/core/poller.cc:25-100 | a one-shot never fires before now + timeout of its AddTimer, with its event, at most once, and has fired after a turn at or after that time unless CancelTimer was called for it |
| TimerHistory.Spaced | src/core/poller.cc:92-95 | no firing comes before the expiry, or less than the timeout after the firing before it |
| TimerHistory.ExecutedOrder | src/core/poller.cc:82-97 | after a turn the queue is in order, and among equal keys those not due come first, then those that fired, in the order in which they fired |

## Left out

Assumptions and parameters:

- Atomic operations are sequentially consistent; the memory orders of src/base/atomic.h are not modelled.
- `malloc` succeeds; its result, any address not in use with any contents, is a parameter.
- A write to the eventfd adds a positive amount (src/core/signaler.cc:32 sends an uninitialised
  number), and `poll` fails only with EINTR.  A thread has left `Worker::In` when `read` finds nothing.
- The clock, random draws, the outcome of `ConnectAsync` and the sizes of network reads are parameters;
  the network is a reliable byte stream per direction.
- Protobuf is two functions: whether the server can use a request, whether the client can parse an
  answer.  Services answer each job once, when they like and as they like; method hashes are not zero.
- Callbacks do not call into the poller.  A callback that calls `CallMethod` during `OnRead` is covered
  by the steps of `RpcSystem`, not by the contract of `RpcChannel.OnRead`.

Contracts that are narrower than the code's input types:

- Buffers.BufferList.ReadAdvance: asks for n readable bytes; `Send` in src/base/net.cc:213-254, which
  also reads past the block, is not modelled.
- Buffers.Buffer.Reset: does not model `cur_`, which only `AppendData` uses; block lists never do.
- Calendar.Localtime: before 1970, where POSIX leaves the seconds open, they are those of the same
  formula with divisions that round down.
- Murmur.MurmurHash64A: says nothing for a negative length.
- Packets.StreamRoundTrip: is about packets with the magic number, and content below 2^32 bytes; for
  another first byte see Packets.WrongMagic.
- RpcSystem.EndToEnd: is about guids that have not wrapped around 2^64; a guid is a natural number.
- TimerRuns.PollUntilFirst: does not count timers re-armed in the same turn, as the code does not.
- TimerRuns.EveryRun: says nothing about a run after a CancelTimer that missed its timer, when a slot
  points to a deleted entry; TimerRuns.OnlyCancelBreaks says when that happens.
- Pollers.Poller.ExecuteTimers: promises nothing about what a read of a deleted entry yields; times are
  integers without wrap-around at 2^64.

Not modelled:

- Sockets, epoll, file and log output, thread creation, host names, stack traces; closing a socket and
  errors on it; when the client's write buffer is flushed.
- `~BufferList`: a recycled block keeps its old link (src/base/buffer.h:38-41), so following it is only
  safe if the last block's link is NULL.
- `TimerEntry` objects are values here; that they and their events are freed once is not claimed.
- `YPipe::Probe`, `MakeTimespec`, `SpinLock`, `Mutex`, `Singleton`, `Slice`, `Endpoint`, `LogThread` and
  the string helpers: thin.
- The macro and switch of lookup8.cc appear once instead of once per function, with one method for the
  bytes of one word; the operators have names (`Xor`, `Plus`), which stand for the operators of C.
