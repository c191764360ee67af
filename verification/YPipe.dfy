/** src/base/ypipe.h and src/base/yqueue.h as a step system.  A step makes at most one access
    to memory the other thread can see (an atomic word, a chunk's slot or link, the allocator)
    and any number of accesses to the fields of its own thread.  The `next` links count as the
    writer's own when the writer reads them: it alone stores them, so BackLinkStep and FreeEndStep
    may read one together with their access to `prev` or to the allocator.  Chunks live in an explicit
    heap; pointers are compared as addresses, and `malloc` may hand out an address that was
    freed before.  Reading through, writing through or freeing a pointer that is not to an
    allocated chunk is a `Fault`. */
module YPipe {
  import opened Wrappers
  import opened AtomicQueue

  type ChunkId = nat

  /** The address of a slot: `&chunk->values[pos]`. */
  datatype Addr = Addr(chunk: ChunkId, pos: nat)

  datatype Chunk<T> = Chunk(values: seq<T>, prev: Option<ChunkId>, next: Option<ChunkId>)

  /** Where the writer thread is.  WStore..WBackLink: inside Write; UStart..UTake: inside UnWrite;
      FCas, FSet: inside Flush. */
  datatype WriterPc<T> =
    | WIdle
    | WStore(item: T, incomplete: bool)
    | WXchg(item: T, incomplete: bool)
    | WAlloc(item: T, incomplete: bool)
    | WLink(item: T, incomplete: bool, hand: ChunkId)
    | WBackLink(item: T, incomplete: bool, hand: ChunkId)
    | UStart
    | UEnd
    | UFree
    | UNull
    | UTake
    | FCas
    | FSet

  /** Where the reader thread is: inside CheckRead, or inside Read. */
  datatype ReaderPc<T> =
    | RIdle
    | RCheck(thenTake: bool)
    | RTake
    | RNext(item: T)
    | RClear(item: T, retired: ChunkId)
    | RXchg(item: T, retired: ChunkId)
    | RFree(item: T, hand: Option<ChunkId>)

  datatype Pipe<T> = Pipe(
    n: nat,                             // N, the items per chunk
    heap: map<ChunkId, Chunk<T>>,       // allocated chunks
    spare: Option<ChunkId>,             // spare_chunk_ (atomic)
    c: Option<Addr>,                    // c_ (atomic); None is NULL
    beginChunk: ChunkId, beginPos: nat, // reader's fields
    r: Option<Addr>,
    rpc: ReaderPc<T>,
    backChunk: ChunkId, backPos: nat,   // writer's fields
    endChunk: ChunkId, endPos: nat,
    w: Addr, f: Addr,
    wpc: WriterPc<T>)
  {
    function Front(): Addr { Addr(beginChunk, beginPos) }
    function Back(): Addr { Addr(backChunk, backPos) }
  }

  datatype Result<T> = Fault | Next(pipe: Pipe<T>, event: Option<Event<T>>)

  /** The result of `malloc`: any address not allocated, with arbitrary contents. */
  datatype Block<T> = Block(id: ChunkId, contents: Chunk<T>)

  predicate Mallocable<T>(p: Pipe<T>, b: Block<T>)
  {
    b.id !in p.heap && |b.contents.values| == p.n
  }

  /** The state after the constructor: one chunk, and for N = 1 a second one, because the
      terminator pushed by the constructor fills the first. */
  function Init<T>(n: nat, first: Block<T>, second: Block<T>): Pipe<T>
  {
    var terminator := Addr(first.id, 0);
    if n == 1 then
      Pipe(n, map[first.id := first.contents.(next := Some(second.id)),
                  second.id := second.contents.(prev := Some(first.id))],
           None, Some(terminator), first.id, 0, Some(terminator), RIdle,
           first.id, 0, second.id, 0, terminator, terminator, WIdle)
    else
      Pipe(n, map[first.id := first.contents],
           None, Some(terminator), first.id, 0, Some(terminator), RIdle,
           first.id, 0, first.id, 1, terminator, terminator, WIdle)
  }

  predicate WriterEnabled<T>(p: Pipe<T>, b: Block<T>)
  {
    !p.wpc.WIdle? && (p.wpc.WAlloc? ==> Mallocable(p, b))
  }

  function WriterStep<T>(p: Pipe<T>, b: Block<T>): Result<T>
    requires WriterEnabled(p, b)
  {
    match p.wpc
    case WStore(_, _) => StoreStep(p)
    case WXchg(_, _) => TakeSpareStep(p)
    case WAlloc(_, _) => AllocStep(p, b)
    case WLink(_, _, _) => LinkStep(p)
    case WBackLink(_, _, _) => BackLinkStep(p)
    case UStart => UnPushBackStep(p)
    case UEnd => UnPushEndStep(p)
    case UFree => FreeEndStep(p)
    case UNull => ClearNextStep(p)
    case UTake => TakeBackStep(p)
    case FCas => FlushCasStep(p)
    case FSet => FlushSetStep(p)
  }

  // ---- Write, with YQueue::Push ----

  /** queue_.Back() = value_; then Push up to its test of end_pos_ */
  function StoreStep<T>(p: Pipe<T>): Result<T>
    requires p.wpc.WStore?
  {
    if p.backChunk !in p.heap || p.backPos >= |p.heap[p.backChunk].values| then Fault else
    var ch := p.heap[p.backChunk];
    var p1 := p.(heap := p.heap[p.backChunk := ch.(values := ch.values[p.backPos := p.wpc.item])],
                 backChunk := p.endChunk, backPos := p.endPos, endPos := p.endPos + 1);
    if p1.endPos != p.n then FinishWrite(p1, p.wpc.item, p.wpc.incomplete)
    else Next(p1.(wpc := WXchg(p.wpc.item, p.wpc.incomplete)), None)
  }

  /** chunk_t *sc = spare_chunk_.Xchg(NULL) */
  function TakeSpareStep<T>(p: Pipe<T>): Result<T>
    requires p.wpc.WXchg?
  {
    Next(p.(spare := None,
            wpc := if p.spare.Some? then WLink(p.wpc.item, p.wpc.incomplete, p.spare.value)
                   else WAlloc(p.wpc.item, p.wpc.incomplete)), None)
  }

  /** allocate_chunk() */
  function AllocStep<T>(p: Pipe<T>, b: Block<T>): Result<T>
    requires p.wpc.WAlloc? && Mallocable(p, b)
  {
    Next(p.(heap := p.heap[b.id := b.contents], wpc := WLink(p.wpc.item, p.wpc.incomplete, b.id)), None)
  }

  /** end_chunk_->next = sc */
  function LinkStep<T>(p: Pipe<T>): Result<T>
    requires p.wpc.WLink?
  {
    if p.endChunk !in p.heap then Fault else
    Next(p.(heap := p.heap[p.endChunk := p.heap[p.endChunk].(next := Some(p.wpc.hand))],
            wpc := WBackLink(p.wpc.item, p.wpc.incomplete, p.wpc.hand)), None)
  }

  /** sc->prev = end_chunk_; end_chunk_ = end_chunk_->next; end_pos_ = 0 */
  function BackLinkStep<T>(p: Pipe<T>): Result<T>
    requires p.wpc.WBackLink?
  {
    if p.wpc.hand !in p.heap || p.endChunk !in p.heap then Fault else
    var heap := p.heap[p.wpc.hand := p.heap[p.wpc.hand].(prev := Some(p.endChunk))];
    if heap[p.endChunk].next.None? then Fault else
    FinishWrite(p.(heap := heap, endChunk := heap[p.endChunk].next.value, endPos := 0),
                p.wpc.item, p.wpc.incomplete)
  }

  /** The end of Write: if (!incomplete_) f_ = &queue_.Back() */
  function FinishWrite<T>(p: Pipe<T>, item: T, incomplete: bool): Result<T>
  {
    Next(p.(f := if incomplete then p.f else p.Back(), wpc := WIdle), Some(Wrote(item, incomplete)))
  }

  // ---- UnWrite, with YQueue::UnPush ----

  /** if (f_ == &queue_.Back()) return false; then UnPush moves 'back' ... */
  function UnPushBackStep<T>(p: Pipe<T>): Result<T>
    requires p.wpc.UStart?
  {
    if p.f == p.Back() then Next(p.(wpc := WIdle), Some(UnWrote(None)))
    else if p.backPos > 0 then Next(p.(backPos := p.backPos - 1, wpc := UEnd), None)
    else if p.backChunk !in p.heap || p.heap[p.backChunk].prev.None? || p.n == 0 then Fault
    else Next(p.(backChunk := p.heap[p.backChunk].prev.value, backPos := p.n - 1, wpc := UEnd), None)
  }

  /** ... and 'end' */
  function UnPushEndStep<T>(p: Pipe<T>): Result<T>
    requires p.wpc.UEnd?
  {
    if p.endPos > 0 then Next(p.(endPos := p.endPos - 1, wpc := UTake), None)
    else if p.endChunk !in p.heap || p.heap[p.endChunk].prev.None? || p.n == 0 then Fault
    else Next(p.(endChunk := p.heap[p.endChunk].prev.value, endPos := p.n - 1, wpc := UFree), None)
  }

  /** free (end_chunk_->next) */
  function FreeEndStep<T>(p: Pipe<T>): Result<T>
    requires p.wpc.UFree?
  {
    if p.endChunk !in p.heap then Fault else
    var last := p.heap[p.endChunk].next;
    if last.Some? && last.value !in p.heap then Fault
    else Next(p.(heap := Free(p.heap, last), wpc := UNull), None)
  }

  /** end_chunk_->next = NULL */
  function ClearNextStep<T>(p: Pipe<T>): Result<T>
    requires p.wpc.UNull?
  {
    if p.endChunk !in p.heap then Fault else
    Next(p.(heap := p.heap[p.endChunk := p.heap[p.endChunk].(next := None)], wpc := UTake), None)
  }

  /** *value_ = queue_.Back() */
  function TakeBackStep<T>(p: Pipe<T>): Result<T>
    requires p.wpc.UTake?
  {
    if p.backChunk !in p.heap || p.backPos >= |p.heap[p.backChunk].values| then Fault else
    Next(p.(wpc := WIdle), Some(UnWrote(Some(p.heap[p.backChunk].values[p.backPos]))))
  }

  /** free(chunk); free(NULL) does nothing. */
  function Free<T>(heap: map<ChunkId, Chunk<T>>, chunk: Option<ChunkId>): map<ChunkId, Chunk<T>>
  {
    if chunk.Some? then heap - {chunk.value} else heap
  }

  // ---- Flush ----

  /** if (w_ == f_) return true; if (c_.Cas(w_, f_) != w_) ... */
  function FlushCasStep<T>(p: Pipe<T>): Result<T>
    requires p.wpc.FCas?
  {
    if p.w == p.f then Next(p.(wpc := WIdle), Some(Flushed(true)))
    else if p.c == Some(p.w) then Next(p.(c := Some(p.f), w := p.f, wpc := WIdle), Some(Flushed(true)))
    else Next(p.(wpc := FSet), None)
  }

  /** c_.Set(f_); w_ = f_; return false */
  function FlushSetStep<T>(p: Pipe<T>): Result<T>
    requires p.wpc.FSet?
  {
    Next(p.(c := Some(p.f), w := p.f, wpc := WIdle), Some(Flushed(false)))
  }

  // ---- CheckRead, and Read with YQueue::Pop ----

  function ReaderStep<T>(p: Pipe<T>): Result<T>
    requires !p.rpc.RIdle?
  {
    match p.rpc
    case RCheck(_) => CheckStep(p)
    case RTake => TakeFrontStep(p)
    case RNext(_) => FollowNextStep(p)
    case RClear(_, _) => ClearPrevStep(p)
    case RXchg(_, _) => PutSpareStep(p)
    case RFree(_, _) => FreeSpareStep(p)
  }

  /** if (&queue_.Front() != r_ && r_) return true; r_ = c_.Cas(&queue_.Front(), NULL); ... */
  function CheckStep<T>(p: Pipe<T>): Result<T>
    requires p.rpc.RCheck?
  {
    var prefetched := p.r != Some(p.Front()) && p.r.Some?;
    var r := if prefetched then p.r else p.c;
    var c := if !prefetched && p.c == Some(p.Front()) then None else p.c;
    var available := r != Some(p.Front()) && r.Some?;
    var p1 := p.(r := r, c := c, rpc := RIdle);
    if !p.rpc.thenTake then Next(p1, Some(Checked(available)))
    else if available then Next(p1.(rpc := RTake), None)
    else Next(p1, Some(ReadNothing))
  }

  /** *value_ = queue_.Front(); then Pop up to its test of begin_pos_ */
  function TakeFrontStep<T>(p: Pipe<T>): Result<T>
    requires p.rpc.RTake?
  {
    if p.beginChunk !in p.heap || p.beginPos >= |p.heap[p.beginChunk].values| then Fault else
    var item := p.heap[p.beginChunk].values[p.beginPos];
    var p1 := p.(beginPos := p.beginPos + 1);
    if p1.beginPos == p.n then Next(p1.(rpc := RNext(item)), None)
    else Next(p1.(rpc := RIdle), Some(ReadGot(item)))
  }

  /** chunk_t *o = begin_chunk_; begin_chunk_ = begin_chunk_->next */
  function FollowNextStep<T>(p: Pipe<T>): Result<T>
    requires p.rpc.RNext?
  {
    if p.beginChunk !in p.heap || p.heap[p.beginChunk].next.None? then Fault
    else Next(p.(beginChunk := p.heap[p.beginChunk].next.value, rpc := RClear(p.rpc.item, p.beginChunk)), None)
  }

  /** begin_chunk_->prev = NULL; begin_pos_ = 0 */
  function ClearPrevStep<T>(p: Pipe<T>): Result<T>
    requires p.rpc.RClear?
  {
    if p.beginChunk !in p.heap then Fault else
    Next(p.(heap := p.heap[p.beginChunk := p.heap[p.beginChunk].(prev := None)], beginPos := 0,
            rpc := RXchg(p.rpc.item, p.rpc.retired)), None)
  }

  /** chunk_t *cs = spare_chunk_.Xchg(o) */
  function PutSpareStep<T>(p: Pipe<T>): Result<T>
    requires p.rpc.RXchg?
  {
    Next(p.(spare := Some(p.rpc.retired), rpc := RFree(p.rpc.item, p.spare)), None)
  }

  /** free(cs) */
  function FreeSpareStep<T>(p: Pipe<T>): Result<T>
    requires p.rpc.RFree?
  {
    if p.rpc.hand.Some? && p.rpc.hand.value !in p.heap then Fault
    else Next(p.(heap := Free(p.heap, p.rpc.hand), rpc := RIdle), Some(ReadGot(p.rpc.item)))
  }

  /** The steps that remain, at most, until the writer's operation returns. */
  function WriterRank<T>(pc: WriterPc<T>): nat
  {
    match pc
    case WIdle => 0
    case WStore(_, _) => 5
    case WXchg(_, _) => 4
    case WAlloc(_, _) => 3
    case WLink(_, _, _) => 2
    case WBackLink(_, _, _) => 1
    case UStart => 5
    case UEnd => 4
    case UFree => 3
    case UNull => 2
    case UTake => 1
    case FCas => 2
    case FSet => 1
  }

  /** The steps that remain, at most, until the reader's operation returns. */
  function ReaderRank<T>(pc: ReaderPc<T>): nat
  {
    match pc
    case RIdle => 0
    case RCheck(_) => 6
    case RTake => 5
    case RNext(_) => 4
    case RClear(_, _) => 3
    case RXchg(_, _) => 2
    case RFree(_, _) => 1
  }

  /** The scheduler's choices: which thread moves, and what an idle thread calls. */
  datatype Action<T> =
    | BeginWrite(item: T, incomplete: bool)
    | BeginUnWrite
    | BeginFlush
    | MoveWriter(block: Block<T>)
    | BeginCheckRead
    | BeginRead
    | MoveReader

  predicate Enabled<T>(p: Pipe<T>, a: Action<T>)
  {
    match a
    case BeginWrite(_, _) => p.wpc.WIdle?
    case BeginUnWrite => p.wpc.WIdle?
    case BeginFlush => p.wpc.WIdle?
    case MoveWriter(b) => WriterEnabled(p, b)
    case BeginCheckRead => p.rpc.RIdle?
    case BeginRead => p.rpc.RIdle?
    case MoveReader => !p.rpc.RIdle?
  }

  function Move<T>(p: Pipe<T>, a: Action<T>): Result<T>
    requires Enabled(p, a)
  {
    match a
    case BeginWrite(item, incomplete) => Next(p.(wpc := WStore(item, incomplete)), None)
    case BeginUnWrite => Next(p.(wpc := UStart), None)
    case BeginFlush => Next(p.(wpc := FCas), None)
    case MoveWriter(b) => WriterStep(p, b)
    case BeginCheckRead => Next(p.(rpc := RCheck(false)), None)
    case BeginRead => Next(p.(rpc := RCheck(true)), None)
    case MoveReader => ReaderStep(p)
  }
}
