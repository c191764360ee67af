/** Every interleaving of the pipe's writer and reader behaves like the atomic queue of module
    AtomicQueue, touches only allocated chunks, and loses no chunk. */
module YPipeProof {
  import opened Wrappers
  import opened AtomicQueue
  import opened YPipe

  /** What the addresses mean.  `at[i]` is the address of the i-th slot ever pushed, `log` the
      items stored so far (slot |log| is the terminator, at the back of the queue); `lo` is the
      first slot of the chunk the reader is in; `front`, `r`, `w`, `f` are the slot numbers
      behind the pointers of the same names. */
  datatype Shape<T> = Shape(at: seq<Addr>, lo: nat, front: nat, r: Option<nat>, w: nat, f: nat, log: seq<T>)

  /** Slot i+1 follows slot i, in the same chunk or at the start of the next one. */
  ghost predicate LinkAt<T>(heap: map<ChunkId, Chunk<T>>, n: nat, at: seq<Addr>, i: nat)
    requires i + 1 < |at|
  {
    && at[i].chunk in heap
    && if at[i].pos + 1 < n then at[i + 1] == Addr(at[i].chunk, at[i].pos + 1)
       else at[i + 1].pos == 0 && heap[at[i].chunk].next == Some(at[i + 1].chunk)
  }

  /** ... and can be walked back. */
  ghost predicate BackLinkAt<T>(heap: map<ChunkId, Chunk<T>>, n: nat, at: seq<Addr>, i: nat)
    requires i + 1 < |at|
  {
    at[i].pos + 1 == n ==> at[i + 1].chunk in heap && heap[at[i + 1].chunk].prev == Some(at[i].chunk)
  }

  ghost predicate SlotHolds<T>(heap: map<ChunkId, Chunk<T>>, a: Addr, v: T)
  {
    a.chunk in heap && a.pos < |heap[a.chunk].values| && heap[a.chunk].values[a.pos] == v
  }

  ghost predicate Ordered<T>(s: Shape<T>)
  {
    && s.lo <= s.front <= s.w <= s.f <= |s.log| < |s.at|
    && (s.r.Some? ==> s.front <= s.r.value <= s.w)
  }

  ghost predicate Apart(at: seq<Addr>, i: nat, j: nat)
    requires i < |at| && j < |at|
  {
    at[i].chunk == at[j].chunk ==> at[j].pos == at[i].pos + (j - i)
  }

  /** No two live slots share an address: within a chunk, addresses move with slot numbers. */
  ghost predicate Spread(n: nat, at: seq<Addr>, lo: nat)
  {
    && (forall i :: lo <= i < |at| ==> at[i].pos < n)
    && (forall i, j :: lo <= i < j < |at| ==> Apart(at, i, j))
  }

  ghost predicate Linked<T>(heap: map<ChunkId, Chunk<T>>, n: nat, s: Shape<T>)
  {
    && (forall i :: s.lo <= i < |s.at| ==> s.at[i].chunk in heap)
    && (forall i :: s.lo <= i < |s.at| - 1 ==> LinkAt(heap, n, s.at, i))
    && (forall i :: s.f <= i < |s.at| - 1 ==> BackLinkAt(heap, n, s.at, i))
    && (forall id :: id in heap ==> |heap[id].values| == n)
  }

  ghost predicate Stored<T>(heap: map<ChunkId, Chunk<T>>, s: Shape<T>)
    requires |s.log| < |s.at|
  {
    forall i :: s.front <= i < |s.log| ==> SlotHolds(heap, s.at[i], s.log[i])
  }

  ghost predicate SameChunk<T>(s: Shape<T>)
    requires Ordered(s)
  {
    forall i :: s.lo <= i <= s.front ==> s.at[i].chunk == s.at[s.front].chunk
  }

  // ---- who owns which chunk ----

  ghost function Live(at: seq<Addr>, lo: nat): set<ChunkId>
  {
    set i | lo <= i < |at| :: at[i].chunk
  }

  function ToSet(o: Option<ChunkId>): set<ChunkId>
  {
    if o.Some? then {o.value} else {}
  }

  function WriterHand<T>(pc: WriterPc<T>): set<ChunkId>
  {
    if pc.WLink? || pc.WBackLink? then {pc.hand} else {}
  }

  function ReaderHand<T>(pc: ReaderPc<T>): set<ChunkId>
  {
    if pc.RFree? then ToSet(pc.hand) else {}
  }

  /** Every allocated chunk has exactly one owner: the linked list, the spare slot, or the local
      variable of one thread. */
  ghost predicate Owned<T>(p: Pipe<T>, s: Shape<T>)
  {
    && p.heap.Keys == Live(s.at, s.lo) + ToSet(p.spare) + WriterHand(p.wpc) + ReaderHand(p.rpc)
    && Live(s.at, s.lo) !! ToSet(p.spare) !! WriterHand(p.wpc) !! ReaderHand(p.rpc)
  }

  // ---- what each thread knows at each program point ----

  ghost predicate WriterKnows<T>(p: Pipe<T>, s: Shape<T>)
    requires Ordered(s)
  {
    var k := |s.log|;
    && p.w == s.at[s.w] && p.f == s.at[s.f]
    && match p.wpc
       case WXchg(_, _) => Pushing(p, s)
       case WAlloc(_, _) => Pushing(p, s)
       case WLink(_, _, _) => Pushing(p, s)
       case WBackLink(_, _, hand) => Pushing(p, s) && p.endChunk in p.heap && p.heap[p.endChunk].next == Some(hand)
       case UEnd => s.f < k && |s.at| == k + 2 && p.Back() == s.at[k - 1] && Addr(p.endChunk, p.endPos) == s.at[k + 1]
       case UFree =>
         && s.f < k && |s.at| == k + 2 && p.Back() == s.at[k - 1]
         && Addr(p.endChunk, p.endPos) == s.at[k] && s.at[k].pos + 1 == p.n && s.at[k + 1].pos == 0
       case UNull => UnPushed(p, s) && s.at[|s.log|].pos + 1 == p.n
       case UTake => UnPushed(p, s)
       case FSet => AtRest(p, s) && p.c.None? && s.w < s.f
       case _ => AtRest(p, s)
  }

  ghost predicate AtRest<T>(p: Pipe<T>, s: Shape<T>)
    requires Ordered(s)
  {
    |s.at| == |s.log| + 2 && p.Back() == s.at[|s.log|] && Addr(p.endChunk, p.endPos) == s.at[|s.log| + 1]
  }

  ghost predicate Pushing<T>(p: Pipe<T>, s: Shape<T>)
    requires Ordered(s) && (p.wpc.WXchg? || p.wpc.WAlloc? || p.wpc.WLink? || p.wpc.WBackLink?)
  {
    && |s.at| == |s.log| + 2 && p.Back() == s.at[|s.log| + 1] && p.endPos == p.n
    && p.endChunk == p.backChunk && p.backPos + 1 == p.n
    && SlotHolds(p.heap, s.at[|s.log|], p.wpc.item)
  }

  ghost predicate UnPushed<T>(p: Pipe<T>, s: Shape<T>)
    requires Ordered(s)
  {
    && s.f < |s.log| && |s.at| == |s.log| + 1
    && p.Back() == s.at[|s.log| - 1] && Addr(p.endChunk, p.endPos) == s.at[|s.log|]
  }

  ghost predicate ReaderKnows<T>(p: Pipe<T>, s: Shape<T>)
    requires Ordered(s)
  {
    && p.r == (if s.r.Some? then Some(s.at[s.r.value]) else None)
    && match p.rpc
       case RTake => p.Front() == s.at[s.front] && Prefetched(s)
       case RNext(item) =>
         && Prefetched(s) && s.log[s.front] == item && s.at[s.front].pos + 1 == p.n
         && p.beginChunk == s.at[s.front].chunk && p.beginPos == p.n
       case RClear(item, retired) => Leaving(p, s) && s.log[s.front] == item && retired == s.at[s.front].chunk
       case RXchg(item, retired) =>
         Leaving(p, s) && s.log[s.front] == item && retired == s.at[s.front].chunk && p.beginPos == 0
       case RFree(_, _) => p.Front() == s.at[s.front]
       case _ => p.Front() == s.at[s.front]
  }

  ghost predicate Prefetched<T>(s: Shape<T>)
  {
    s.r.Some? && s.front < s.r.value
  }

  ghost predicate Leaving<T>(p: Pipe<T>, s: Shape<T>)
    requires Ordered(s)
  {
    Prefetched(s) && s.at[s.front].pos + 1 == p.n && p.beginChunk == s.at[s.front + 1].chunk
  }

  /** The shared word points past the last flushed item, or is NULL and all flushed items were read. */
  ghost predicate WordKnows<T>(p: Pipe<T>, s: Shape<T>)
    requires Ordered(s)
  {
    if p.c.Some? then p.c.value == s.at[s.w] else s.w == s.front
  }

  ghost predicate Rep<T>(p: Pipe<T>, s: Shape<T>)
  {
    && p.n >= 1
    && Ordered(s)
    && Spread(p.n, s.at, s.lo)
    && Linked(p.heap, p.n, s)
    && Stored(p.heap, s)
    && SameChunk(s)
    && Owned(p, s)
    && WriterKnows(p, s)
    && ReaderKnows(p, s)
    && WordKnows(p, s)
  }

  /** The atomic queue that the pipe stands for. */
  ghost function Abs<T>(p: Pipe<T>, s: Shape<T>): Fifo<T>
    requires Ordered(s)
  {
    Fifo((if p.rpc.RFree? then [p.rpc.item] else []) + s.log[s.front..s.w], s.log[s.w..s.f], s.log[s.f..], p.c.None?)
  }

  lemma Sorted<T>(p: Pipe<T>, s: Shape<T>)
    requires Rep(p, s)
    ensures Ordered(s)
  {
  }

  // ---- No ABA: live addresses are equal exactly when the slots are ----

  lemma NoAba<T>(p: Pipe<T>, s: Shape<T>, i: nat, j: nat)
    requires Rep(p, s)
    requires s.lo <= i < |s.at| && s.lo <= j < |s.at|
    ensures s.at[i] == s.at[j] <==> i == j
  {
    if i < j { assert Apart(s.at, i, j); } else if j < i { assert Apart(s.at, j, i); }
  }

  /** A check makes r_ NULL exactly if c_ is NULL when it starts: if the reader is asleep. */
  lemma CheckNull<T>(p: Pipe<T>, s: Shape<T>)
    requires Rep(p, s) && p.rpc.RCheck?
    ensures CheckStep(p).Next? && (CheckStep(p).pipe.r.None? <==> p.c.None?)
  {
    hide Spread, Linked, Stored, SameChunk, Owned, WriterKnows;
    NoAba(p, s, s.front, s.w);
    if s.r.Some? { NoAba(p, s, s.front, s.r.value); }
  }

  // ---- frames ----

  /** A store into a slot of an allocated chunk leaves the chain alone. */
  lemma StoreKeepsLinks<T>(heap: map<ChunkId, Chunk<T>>, n: nat, s: Shape<T>, id: ChunkId, values: seq<T>)
    requires Ordered(s) && Linked(heap, n, s) && id in heap && |values| == n
    ensures Linked(heap[id := heap[id].(values := values)], n, s)
  {
    var heap' := heap[id := heap[id].(values := values)];
    forall i | s.lo <= i < |s.at| - 1 ensures LinkAt(heap', n, s.at, i) { assert LinkAt(heap, n, s.at, i); }
    forall i | s.f <= i < |s.at| - 1 ensures BackLinkAt(heap', n, s.at, i) { assert BackLinkAt(heap, n, s.at, i); }
  }

  /** `p` with `s` may become `q` with `t`, the caller seeing `e`. */
  ghost predicate Simulates<T>(p: Pipe<T>, s: Shape<T>, q: Pipe<T>, t: Shape<T>, e: Option<Event<T>>)
    requires Ordered(s) && Ordered(t)
  {
    match e
    case None => Abs(q, t) == Abs(p, s)
    case Some(e) => Step(Abs(p, s), e, Abs(q, t))
  }

  /** The step from `p` does not fault, and its result is `t`'s pipe. */
  ghost predicate Simulated<T>(p: Pipe<T>, s: Shape<T>, res: Result<T>, t: Shape<T>)
    requires Ordered(s)
  {
    res.Next? && Rep(res.pipe, t) && Simulates(p, s, res.pipe, t, res.event)
  }

  // ---- the writer ----

  /** One more slot at the end of the chain. */
  lemma GrowChain<T>(heap: map<ChunkId, Chunk<T>>, n: nat, s: Shape<T>, a: Addr, t: Shape<T>)
    requires Ordered(s) && Ordered(t) && Spread(n, s.at, s.lo) && Linked(heap, n, s)
    requires t.at == s.at + [a] && t.lo == s.lo && s.f <= t.f
    requires a.pos < n && a.chunk in heap
    requires forall i :: s.lo <= i < |s.at| ==> Apart(t.at, i, |s.at|)
    requires LinkAt(heap, n, t.at, |s.at| - 1) && BackLinkAt(heap, n, t.at, |s.at| - 1)
    ensures Spread(n, t.at, t.lo) && Linked(heap, n, t)
    ensures Live(t.at, t.lo) == Live(s.at, s.lo) + {a.chunk}
  {
    forall i | t.lo <= i < |t.at| - 1 ensures LinkAt(heap, n, t.at, i) {
      if i < |s.at| - 1 { assert LinkAt(heap, n, s.at, i); }
    }
    forall i | t.f <= i < |t.at| - 1 ensures BackLinkAt(heap, n, t.at, i) {
      if i < |s.at| - 1 { assert BackLinkAt(heap, n, s.at, i); }
    }
    assert t.at[|s.at|] == a;
    assert forall i :: s.lo <= i < |s.at| ==> t.at[i] == s.at[i];
    forall i, j | t.lo <= i < j < |t.at| ensures Apart(t.at, i, j) {
      if j < |s.at| { assert Apart(s.at, i, j); }
    }
  }

  ghost function Written<T>(s: Shape<T>, a: Addr, item: T, incomplete: bool): Shape<T>
  {
    s.(at := s.at + [a], log := s.log + [item], f := if incomplete then s.f else |s.log| + 1)
  }

  lemma WrittenAbs<T>(p: Pipe<T>, s: Shape<T>, q: Pipe<T>, a: Addr, item: T, incomplete: bool)
    requires Ordered(s) && |s.log| + 1 < |s.at| && p.rpc == q.rpc && p.c == q.c
    ensures Ordered(Written(s, a, item, incomplete))
    ensures Step(Abs(p, s), Wrote(item, incomplete), Abs(q, Written(s, a, item, incomplete)))
  {
    var t := Written(s, a, item, incomplete);
    assert t.log[t.front..t.w] == s.log[s.front..s.w];
    if incomplete {
      assert t.log[t.w..t.f] == s.log[s.w..s.f];
      assert t.log[t.f..] == s.log[s.f..] + [item];
    } else {
      assert t.log[t.w..t.f] == s.log[s.w..s.f] + s.log[s.f..] + [item];
    }
  }

  /** The heap after `queue_.Back() = value_`. */
  lemma StoreItem<T>(p: Pipe<T>, s: Shape<T>, item: T) returns (heap: map<ChunkId, Chunk<T>>)
    requires Rep(p, s) && p.Back() == s.at[|s.log|]
    ensures p.backChunk in p.heap && p.backPos < |p.heap[p.backChunk].values|
    ensures heap == p.heap[p.backChunk := p.heap[p.backChunk].(values := p.heap[p.backChunk].values[p.backPos := item])]
    ensures heap.Keys == p.heap.Keys && Linked(heap, p.n, s) && Stored(heap, s)
    ensures SlotHolds(heap, s.at[|s.log|], item)
  {
    var k := |s.log|;
    var values := p.heap[p.backChunk].values[p.backPos := item];
    heap := p.heap[p.backChunk := p.heap[p.backChunk].(values := values)];
    StoreKeepsLinks(p.heap, p.n, s, p.backChunk, values);
    forall i | s.front <= i < k ensures SlotHolds(heap, s.at[i], s.log[i]) {
      assert SlotHolds(p.heap, s.at[i], s.log[i]);
      NoAba(p, s, i, k);
    }
  }

  /** What the reader relies on survives whatever the writer does beyond `f`. */
  lemma ReaderKeeps<T>(p: Pipe<T>, s: Shape<T>, q: Pipe<T>, t: Shape<T>)
    requires Ordered(s) && Ordered(t) && SameChunk(s) && ReaderKnows(p, s) && WordKnows(p, s)
    requires t.lo == s.lo && t.front == s.front && t.r == s.r && t.w == s.w && t.w <= s.f
    requires forall i :: s.lo <= i <= s.w ==> t.at[i] == s.at[i]
    requires forall i :: s.front <= i < s.w ==> t.log[i] == s.log[i]
    requires q.n == p.n && q.r == p.r && q.rpc == p.rpc && q.beginChunk == p.beginChunk && q.beginPos == p.beginPos
    requires q.c == p.c
    ensures SameChunk(t) && ReaderKnows(q, t) && WordKnows(q, t)
  {
    if s.r.Some? { assert t.at[s.r.value] == s.at[s.r.value]; }
    assert t.at[s.w] == s.at[s.w];
    assert t.at[s.front] == s.at[s.front];
    if Prefetched(s) { assert t.log[s.front] == s.log[s.front]; assert t.at[s.front + 1] == s.at[s.front + 1]; }
    forall i | t.lo <= i <= t.front ensures t.at[i].chunk == t.at[t.front].chunk {
      assert t.at[i] == s.at[i];
    }
  }

  /** The end of Write: one slot is appended, and the item becomes part of the log. */
  lemma FinishKeeps<T>(p: Pipe<T>, s: Shape<T>, p1: Pipe<T>, a: Addr, item: T, incomplete: bool) returns (t: Shape<T>)
    requires p.n >= 1 && Ordered(s) && SameChunk(s) && ReaderKnows(p, s) && WordKnows(p, s)
    requires p1.n == p.n && p1.r == p.r && p1.rpc == p.rpc && p1.beginChunk == p.beginChunk && p1.beginPos == p.beginPos
    requires p1.c == p.c && p1.w == p.w && p1.f == p.f && p.w == s.at[s.w] && p.f == s.at[s.f]
    requires |s.at| == |s.log| + 2 && p1.Back() == s.at[|s.log| + 1] && Addr(p1.endChunk, p1.endPos) == a
    requires Spread(p.n, s.at, s.lo) && Linked(p1.heap, p.n, s) && Stored(p1.heap, s)
    requires a.pos < p.n && a.chunk in p1.heap && SlotHolds(p1.heap, s.at[|s.log|], item)
    requires forall i :: s.lo <= i < |s.at| ==> Apart(s.at + [a], i, |s.at|)
    requires LinkAt(p1.heap, p.n, s.at + [a], |s.at| - 1) && BackLinkAt(p1.heap, p.n, s.at + [a], |s.at| - 1)
    requires p1.heap.Keys == Live(s.at, s.lo) + {a.chunk} + ToSet(p1.spare) + ReaderHand(p.rpc)
    requires (Live(s.at, s.lo) + {a.chunk}) !! ToSet(p1.spare) !! ReaderHand(p.rpc)
    ensures Simulated(p, s, FinishWrite(p1, item, incomplete), t)
  {
    hide Spread, Linked, LinkAt, BackLinkAt, Apart, WordKnows, ReaderKnows, SameChunk, Abs, Live, Stored;
    t := Written(s, a, item, incomplete);
    var q := FinishWrite(p1, item, incomplete).pipe;
    GrowChain(p1.heap, p.n, s, a, t);
    WrittenAbs(p, s, q, a, item, incomplete);
    ReaderKeeps(p, s, q, t);
    StoredMore(p1.heap, s, a, item, incomplete);
    assert WriterKnows(q, t);
  }

  lemma StoredMore<T>(heap: map<ChunkId, Chunk<T>>, s: Shape<T>, a: Addr, item: T, incomplete: bool)
    requires |s.at| == |s.log| + 2 && Stored(heap, s) && SlotHolds(heap, s.at[|s.log|], item)
    ensures Stored(heap, Written(s, a, item, incomplete))
  {
    hide SlotHolds;
    var t := Written(s, a, item, incomplete);
    forall i | t.front <= i < |t.log| ensures SlotHolds(heap, t.at[i], t.log[i]) {
      if i < |s.log| { assert SlotHolds(heap, s.at[i], s.log[i]); }
    }
  }

  /** A step of the writer that only moves its own fields and the heap. */
  lemma ReaderUntouched<T>(p: Pipe<T>, s: Shape<T>, q: Pipe<T>)
    requires Rep(p, s)
    requires q == p.(heap := q.heap, spare := q.spare, backChunk := q.backChunk, backPos := q.backPos,
                     endChunk := q.endChunk, endPos := q.endPos, wpc := q.wpc)
    ensures ReaderKnows(q, s) && WordKnows(q, s)
  {
    hide Spread, Linked, Stored, Owned, WriterKnows;
    ReaderKeeps(p, s, q, s);
  }

  lemma StoreApart<T>(p: Pipe<T>, s: Shape<T>, a: Addr)
    requires Rep(p, s) && AtRest(p, s) && a == Addr(p.endChunk, p.endPos + 1) && a.pos != p.n
    ensures a.pos < p.n && a.chunk in Live(s.at, s.lo)
    ensures forall i :: s.lo <= i < |s.at| ==> Apart(s.at + [a], i, |s.at|)
  {
    hide Linked, Stored, Owned, WriterKnows, ReaderKnows, WordKnows;
    var e := |s.log| + 1;
    assert s.at[e].chunk in Live(s.at, s.lo);
    forall i | s.lo <= i < |s.at| ensures Apart(s.at + [a], i, |s.at|) {
      if i < e { assert Apart(s.at, i, e); }
    }
  }

  /** The chunk has room for the next terminator: Write is done. */
  lemma StoreRoomSim<T>(p: Pipe<T>, s: Shape<T>) returns (t: Shape<T>)
    requires Rep(p, s) && p.wpc.WStore? && p.endPos + 1 != p.n
    ensures Simulated(p, s, StoreStep(p), t)
  {
    hide Spread, Stored, SameChunk, ReaderKnows, WordKnows, Live, Linked;
    var heap := StoreItem(p, s, p.wpc.item);
    StoreApart(p, s, Addr(p.endChunk, p.endPos + 1));
    var p1 := p.(heap := heap, backChunk := p.endChunk, backPos := p.endPos, endPos := p.endPos + 1);
    t := FinishKeeps(p, s, p1, Addr(p.endChunk, p.endPos + 1), p.wpc.item, p.wpc.incomplete);
  }

  lemma StoreFullSim<T>(p: Pipe<T>, s: Shape<T>)
    requires Rep(p, s) && p.wpc.WStore? && p.endPos + 1 == p.n
    ensures Simulated(p, s, StoreStep(p), s)
  {
    hide Spread, Stored, SameChunk, ReaderKnows, WordKnows, Live;
    var heap := StoreItem(p, s, p.wpc.item);
    ReaderUntouched(p, s, StoreStep(p).pipe);
  }

  lemma StoreSim<T>(p: Pipe<T>, s: Shape<T>) returns (t: Shape<T>)
    requires Rep(p, s) && p.wpc.WStore?
    ensures Simulated(p, s, StoreStep(p), t)
  {
    hide Rep, Simulated, StoreStep;
    if p.endPos + 1 != p.n {
      t := StoreRoomSim(p, s);
    } else {
      t := s;
      StoreFullSim(p, s);
    }
  }

  lemma TakeSpareSim<T>(p: Pipe<T>, s: Shape<T>) returns (t: Shape<T>)
    requires Rep(p, s) && p.wpc.WXchg?
    ensures Simulated(p, s, TakeSpareStep(p), t)
  {
    hide Spread, Linked, Stored, SameChunk, ReaderKnows, WordKnows, Live;
    t := s;
    ReaderUntouched(p, s, TakeSpareStep(p).pipe);
  }

  /** Only the chunks of the list matter to the chain. */
  lemma HeapFrame<T>(heap: map<ChunkId, Chunk<T>>, heap': map<ChunkId, Chunk<T>>, n: nat, s: Shape<T>)
    requires Ordered(s) && Linked(heap, n, s) && Stored(heap, s)
    requires forall id :: id in Live(s.at, s.lo) ==> id in heap' && id in heap && heap'[id] == heap[id]
    requires forall id :: id in heap' ==> |heap'[id].values| == n
    ensures Linked(heap', n, s) && Stored(heap', s)
  {
    assert forall i :: s.lo <= i < |s.at| ==> s.at[i].chunk in Live(s.at, s.lo);
    forall i | s.lo <= i < |s.at| - 1 ensures LinkAt(heap', n, s.at, i) { assert LinkAt(heap, n, s.at, i); }
    forall i | s.f <= i < |s.at| - 1 ensures BackLinkAt(heap', n, s.at, i) {
      assert BackLinkAt(heap, n, s.at, i);
      assert s.at[i + 1].chunk in Live(s.at, s.lo);
    }
    forall i | s.front <= i < |s.log| ensures SlotHolds(heap', s.at[i], s.log[i]) {
      assert SlotHolds(heap, s.at[i], s.log[i]);
    }
  }

  lemma LiveAt<T>(s: Shape<T>, i: nat)
    requires s.lo <= i < |s.at|
    ensures s.at[i].chunk in Live(s.at, s.lo)
  {
  }

  lemma AllocSim<T>(p: Pipe<T>, s: Shape<T>, b: Block<T>) returns (t: Shape<T>)
    requires Rep(p, s) && p.wpc.WAlloc? && Mallocable(p, b)
    ensures Simulated(p, s, AllocStep(p, b), t)
  {
    hide Spread, Stored, SameChunk, ReaderKnows, WordKnows, Live;
    t := s;
    var q := AllocStep(p, b).pipe;
    HeapFrame(p.heap, q.heap, p.n, s);
    ReaderUntouched(p, s, q);
    LiveAt(s, |s.log|);
  }

  /** Setting the `next` of the chunk that ends the list leaves the chain alone. */
  lemma SetLastNext<T>(heap: map<ChunkId, Chunk<T>>, n: nat, s: Shape<T>, next: Option<ChunkId>)
    requires Ordered(s) && Spread(n, s.at, s.lo) && Linked(heap, n, s) && Stored(heap, s)
    requires s.at[|s.at| - 1].pos + 1 == n
    ensures var last := s.at[|s.at| - 1].chunk;
            last in heap && Linked(heap[last := heap[last].(next := next)], n, s)
            && Stored(heap[last := heap[last].(next := next)], s)
  {
    var e := |s.at| - 1;
    var heap' := heap[s.at[e].chunk := heap[s.at[e].chunk].(next := next)];
    forall i | s.lo <= i < |s.at| - 1 ensures LinkAt(heap', n, s.at, i) {
      assert LinkAt(heap, n, s.at, i);
      assert Apart(s.at, i, e);
    }
    forall i | s.f <= i < |s.at| - 1 ensures BackLinkAt(heap', n, s.at, i) { assert BackLinkAt(heap, n, s.at, i); }
    forall i | s.front <= i < |s.log| ensures SlotHolds(heap', s.at[i], s.log[i]) {
      assert SlotHolds(heap, s.at[i], s.log[i]);
    }
  }

  lemma LinkSim<T>(p: Pipe<T>, s: Shape<T>) returns (t: Shape<T>)
    requires Rep(p, s) && p.wpc.WLink?
    ensures Simulated(p, s, LinkStep(p), t)
  {
    hide Spread, Linked, Stored, SameChunk, ReaderKnows, WordKnows, Live;
    t := s;
    SetLastNext(p.heap, p.n, s, Some(p.wpc.hand));
    ReaderUntouched(p, s, LinkStep(p).pipe);
  }

  lemma BackLinkApart<T>(n: nat, s: Shape<T>, a: Addr)
    requires a.chunk !in Live(s.at, s.lo)
    ensures forall i :: s.lo <= i < |s.at| ==> Apart(s.at + [a], i, |s.at|)
  {
    forall i | s.lo <= i < |s.at| ensures Apart(s.at + [a], i, |s.at|) { LiveAt(s, i); }
  }

  lemma BackLinkSim<T>(p: Pipe<T>, s: Shape<T>) returns (t: Shape<T>)
    requires Rep(p, s) && p.wpc.WBackLink?
    ensures Simulated(p, s, BackLinkStep(p), t)
  {
    hide Spread, Stored, SameChunk, ReaderKnows, WordKnows, Live, Simulated;
    var hand := p.wpc.hand;
    var a := Addr(hand, 0);
    var heap := p.heap[hand := p.heap[hand].(prev := Some(p.endChunk))];
    LiveAt(s, |s.log| + 1);
    LiveAt(s, |s.log|);
    HeapFrame(p.heap, heap, p.n, s);
    BackLinkApart(p.n, s, a);
    t := FinishKeeps(p, s, p.(heap := heap, endChunk := hand, endPos := 0), a, p.wpc.item, p.wpc.incomplete);
  }

  // ---- UnWrite ----

  /** UnPush moves `back` to the slot before it, which is at or after `f`. */
  lemma StepBack<T>(p: Pipe<T>, s: Shape<T>, i: nat)
    requires Rep(p, s) && s.f <= i < |s.at| - 1
    ensures if s.at[i + 1].pos > 0 then s.at[i] == Addr(s.at[i + 1].chunk, s.at[i + 1].pos - 1)
            else s.at[i + 1].chunk in p.heap && p.heap[s.at[i + 1].chunk].prev == Some(s.at[i].chunk)
                 && s.at[i].pos == p.n - 1
  {
    hide Stored, Owned, WriterKnows, ReaderKnows, WordKnows;
    assert LinkAt(p.heap, p.n, s.at, i);
    assert BackLinkAt(p.heap, p.n, s.at, i);
  }

  lemma UnPushBackSim<T>(p: Pipe<T>, s: Shape<T>) returns (t: Shape<T>)
    requires Rep(p, s) && p.wpc.UStart?
    ensures Simulated(p, s, UnPushBackStep(p), t)
  {
    hide Spread, Linked, Stored, SameChunk, ReaderKnows, WordKnows, Live;
    NoAba(p, s, s.f, |s.log|);
    if s.f < |s.log| { StepBack(p, s, |s.log| - 1); }
    t := s;
    ReaderUntouched(p, s, UnPushBackStep(p).pipe);
  }

  /** One slot less at the end of the chain. */
  lemma ShrinkChain<T>(heap: map<ChunkId, Chunk<T>>, n: nat, s: Shape<T>, t: Shape<T>)
    requires Ordered(s) && Spread(n, s.at, s.lo) && Linked(heap, n, s) && Stored(heap, s)
    requires |s.log| + 1 < |s.at| && t == s.(at := s.at[..|s.at| - 1])
    ensures Ordered(t) && Spread(n, t.at, t.lo) && Linked(heap, n, t) && Stored(heap, t)
    ensures var last := s.at[|s.at| - 1];
            Live(t.at, t.lo) == if last.pos == 0 then Live(s.at, s.lo) - {last.chunk} else Live(s.at, s.lo)
  {
    var e := |s.at| - 1;
    forall i | t.lo <= i < |t.at| - 1 ensures LinkAt(heap, n, t.at, i) { assert LinkAt(heap, n, s.at, i); }
    forall i | t.f <= i < |t.at| - 1 ensures BackLinkAt(heap, n, t.at, i) { assert BackLinkAt(heap, n, s.at, i); }
    forall i, j | t.lo <= i < j < |t.at| ensures Apart(t.at, i, j) { assert Apart(s.at, i, j); }
    forall i | t.front <= i < |t.log| ensures SlotHolds(heap, t.at[i], t.log[i]) { assert SlotHolds(heap, s.at[i], s.log[i]); }
    ShrinkLive(heap, n, s, t);
  }

  lemma ShrinkLive<T>(heap: map<ChunkId, Chunk<T>>, n: nat, s: Shape<T>, t: Shape<T>)
    requires Ordered(s) && Spread(n, s.at, s.lo) && Linked(heap, n, s)
    requires |s.log| + 1 < |s.at| && t == s.(at := s.at[..|s.at| - 1])
    ensures var last := s.at[|s.at| - 1];
            Live(t.at, t.lo) == if last.pos == 0 then Live(s.at, s.lo) - {last.chunk} else Live(s.at, s.lo)
  {
    var e := |s.at| - 1;
    assert Live(s.at, s.lo) == Live(t.at, t.lo) + {s.at[e].chunk} by {
      assert forall i :: t.lo <= i < |t.at| ==> t.at[i] == s.at[i];
    }
    if s.at[e].pos == 0 {
      forall i | t.lo <= i < |t.at| ensures t.at[i].chunk != s.at[e].chunk { assert Apart(s.at, i, e); }
    } else {
      assert LinkAt(heap, n, s.at, e - 1);
      assert t.at[e - 1].chunk == s.at[e].chunk;
    }
  }

  lemma UnPushEndSim<T>(p: Pipe<T>, s: Shape<T>) returns (t: Shape<T>)
    requires Rep(p, s) && p.wpc.UEnd?
    ensures Simulated(p, s, UnPushEndStep(p), t)
  {
    hide Spread, Linked, Stored, SameChunk, ReaderKnows, WordKnows, Live;
    StepBack(p, s, |s.log|);
    var q := UnPushEndStep(p).pipe;
    ReaderUntouched(p, s, q);
    if p.endPos > 0 {
      t := s.(at := s.at[..|s.at| - 1]);
      ShrinkChain(p.heap, p.n, s, t);
      ReaderKeeps(q, s, q, t);
    } else {
      t := s;
    }
  }

  lemma EndNext<T>(p: Pipe<T>, s: Shape<T>)
    requires Rep(p, s) && p.wpc.UFree?
    ensures p.endChunk in p.heap && p.heap[p.endChunk].next == Some(s.at[|s.log| + 1].chunk)
    ensures s.at[|s.log| + 1].chunk in Live(s.at, s.lo)
  {
    assert LinkAt(p.heap, p.n, s.at, |s.log|);
  }

  lemma ValuesSized<T>(p: Pipe<T>, s: Shape<T>)
    requires Rep(p, s)
    ensures forall id :: id in p.heap ==> |p.heap[id].values| == p.n
  {
  }

  lemma FreeEndSim<T>(p: Pipe<T>, s: Shape<T>) returns (t: Shape<T>)
    requires Rep(p, s) && p.wpc.UFree?
    ensures Simulated(p, s, FreeEndStep(p), t)
  {
    hide Spread, Linked, Stored, SameChunk, ReaderKnows, WordKnows, Live;
    EndNext(p, s);
    ValuesSized(p, s);
    var q := FreeEndStep(p).pipe;
    t := s.(at := s.at[..|s.at| - 1]);
    ShrinkChain(p.heap, p.n, s, t);
    ReaderUntouched(p, s, q);
    ReaderKeeps(q, s, q, t);
    HeapFrame(p.heap, q.heap, p.n, t);
  }

  lemma ClearNextSim<T>(p: Pipe<T>, s: Shape<T>) returns (t: Shape<T>)
    requires Rep(p, s) && p.wpc.UNull?
    ensures Simulated(p, s, ClearNextStep(p), t)
  {
    hide Spread, Linked, Stored, SameChunk, ReaderKnows, WordKnows, Live;
    t := s;
    SetLastNext(p.heap, p.n, s, None);
    ReaderUntouched(p, s, ClearNextStep(p).pipe);
  }

  lemma TakeBackSim<T>(p: Pipe<T>, s: Shape<T>) returns (t: Shape<T>)
    requires Rep(p, s) && p.wpc.UTake?
    ensures Simulated(p, s, TakeBackStep(p), t)
  {
    hide Spread, Linked, Stored, SameChunk, ReaderKnows, WordKnows, Live, Abs;
    t := s.(log := s.log[..|s.log| - 1]);
    TruncateLog(p, s, t);
    var q := TakeBackStep(p).pipe;
    TakeBackAbs(p, s, q, t);
    ReaderUntouched(p, s, q);
    ReaderKeeps(q, s, q, t);
  }

  lemma TruncateLog<T>(p: Pipe<T>, s: Shape<T>, t: Shape<T>)
    requires Rep(p, s) && p.wpc.UTake? && t == s.(log := s.log[..|s.log| - 1])
    ensures Linked(p.heap, p.n, t) && Stored(p.heap, t)
    ensures SlotHolds(p.heap, p.Back(), s.log[|s.log| - 1])
  {
    hide Spread, SameChunk, ReaderKnows, WordKnows, Owned;
    assert SlotHolds(p.heap, s.at[|s.log| - 1], s.log[|s.log| - 1]);
    forall i | t.front <= i < |t.log| ensures SlotHolds(p.heap, t.at[i], t.log[i]) { assert SlotHolds(p.heap, s.at[i], s.log[i]); }
  }

  lemma TakeBackAbs<T>(p: Pipe<T>, s: Shape<T>, q: Pipe<T>, t: Shape<T>)
    requires Ordered(s) && s.f < |s.log| && t == s.(log := s.log[..|s.log| - 1]) && q.c == p.c && q.rpc == p.rpc
    ensures Ordered(t) && Step(Abs(p, s), UnWrote(Some(s.log[|s.log| - 1])), Abs(q, t))
  {
    assert t.log[t.front..t.w] == s.log[s.front..s.w] && t.log[t.w..t.f] == s.log[s.w..s.f];
    assert s.log[s.f..] == t.log[t.f..] + [s.log[|s.log| - 1]];
  }

  // ---- Flush ----

  lemma FlushAbs<T>(p: Pipe<T>, s: Shape<T>, q: Pipe<T>, t: Shape<T>)
    requires Ordered(s) && s.w < s.f && t == s.(w := s.f) && q.rpc == p.rpc && q.c.Some?
    ensures Ordered(t) && Step(Abs(p, s), Flushed(p.c.Some?), Abs(q, t))
  {
    assert s.log[s.w..s.f] != [];
    assert t.log[t.front..t.w] == s.log[s.front..s.w] + s.log[s.w..s.f];
  }

  lemma FlushNothing<T>(p: Pipe<T>, s: Shape<T>, q: Pipe<T>)
    requires Ordered(s) && s.w == s.f && q.c == p.c && q.rpc == p.rpc
    ensures Step(Abs(p, s), Flushed(true), Abs(q, s))
  {
  }

  lemma WordMoves<T>(p: Pipe<T>, s: Shape<T>, q: Pipe<T>, t: Shape<T>)
    requires Rep(p, s) && t == s.(w := s.f)
    requires q == p.(c := Some(p.f), w := p.f, wpc := q.wpc)
    ensures Ordered(t) && Spread(q.n, t.at, t.lo) && Linked(q.heap, q.n, t) && Stored(q.heap, t) && SameChunk(t)
    ensures ReaderKnows(q, t) && WordKnows(q, t)
  {
    hide LinkAt, BackLinkAt, Apart, SlotHolds, Owned;
  }

  lemma FlushCasSim<T>(p: Pipe<T>, s: Shape<T>) returns (t: Shape<T>)
    requires Rep(p, s) && p.wpc.FCas?
    ensures Simulated(p, s, FlushCasStep(p), t)
  {
    hide Spread, Linked, Stored, SameChunk, ReaderKnows, Live, Abs;
    NoAba(p, s, s.w, s.f);
    var q := FlushCasStep(p).pipe;
    if p.w == p.f {
      t := s;
      FlushNothing(p, s, q);
      ReaderUntouched(p, s, q);
    } else if p.c == Some(p.w) {
      t := s.(w := s.f);
      FlushAbs(p, s, q, t);
      WordMoves(p, s, q, t);
    } else {
      t := s;
      ReaderUntouched(p, s, q);
      assert Abs(q, t) == Abs(p, s) by { SameAbs(p, s, q); }
    }
  }

  lemma SameAbs<T>(p: Pipe<T>, s: Shape<T>, q: Pipe<T>)
    requires Ordered(s) && q.c == p.c && q.rpc == p.rpc
    ensures Abs(q, s) == Abs(p, s)
  {
  }

  lemma FlushSetSim<T>(p: Pipe<T>, s: Shape<T>) returns (t: Shape<T>)
    requires Rep(p, s) && p.wpc.FSet?
    ensures Simulated(p, s, FlushSetStep(p), t)
  {
    hide Spread, Linked, Stored, SameChunk, ReaderKnows, Live, Abs;
    var q := FlushSetStep(p).pipe;
    t := s.(w := s.f);
    FlushAbs(p, s, q, t);
    WordMoves(p, s, q, t);
  }

  // ---- the reader ----

  /** What the writer relies on survives a step of the reader that keeps the writer's slots. */
  lemma WriterKeeps<T>(p: Pipe<T>, s: Shape<T>, q: Pipe<T>, t: Shape<T>)
    requires Ordered(s) && Ordered(t) && WriterKnows(p, s)
    requires t.at == s.at && t.log == s.log && t.w == s.w && t.f == s.f
    requires q == p.(heap := q.heap, spare := q.spare, c := q.c, beginChunk := q.beginChunk, beginPos := q.beginPos,
                     r := q.r, rpc := q.rpc)
    requires p.c.None? ==> q.c.None?
    requires forall id :: id in Live(s.at, s.lo) && id in p.heap ==>
               id in q.heap && q.heap[id].values == p.heap[id].values && q.heap[id].next == p.heap[id].next
    ensures WriterKnows(q, t)
  {
    if |s.log| + 1 < |s.at| {
      LiveAt(s, |s.log|);
      LiveAt(s, |s.log| + 1);
    }
  }

  /** The prefetched limit `r` is moved to where the shared word points. */
  ghost function Prefetch<T>(p: Pipe<T>, s: Shape<T>): Shape<T>
  {
    if p.r.Some? && s.r != Some(s.front) then s else s.(r := if p.c.Some? then Some(s.w) else None)
  }

  lemma CheckAbs<T>(p: Pipe<T>, s: Shape<T>, q: Pipe<T>, t: Shape<T>)
    requires Rep(p, s) && p.rpc.RCheck? && t == Prefetch(p, s) && CheckStep(p) == Next(q, CheckStep(p).event)
    ensures Ordered(t) && ReaderKnows(q, t) && WordKnows(q, t) && Simulates(p, s, q, t, CheckStep(p).event)
    ensures p.c.None? ==> q.c.None?
  {
    hide Linked, Stored, Owned, WriterKnows, SameChunk, Spread;
    NoAba(p, s, s.front, s.w);
    if s.r.Some? { NoAba(p, s, s.front, s.r.value); }
  }

  lemma CheckSim<T>(p: Pipe<T>, s: Shape<T>) returns (t: Shape<T>)
    requires Rep(p, s) && p.rpc.RCheck?
    ensures Simulated(p, s, CheckStep(p), t)
  {
    hide Spread, LinkAt, BackLinkAt, SlotHolds, WriterKnows, ReaderKnows, WordKnows, Live, Simulates;
    t := Prefetch(p, s);
    var q := CheckStep(p).pipe;
    CheckAbs(p, s, q, t);
    WriterKeeps(p, s, q, t);
  }

  lemma FrontItem<T>(p: Pipe<T>, s: Shape<T>)
    requires Rep(p, s) && s.front < s.w
    ensures SlotHolds(p.heap, s.at[s.front], s.log[s.front])
    ensures LinkAt(p.heap, p.n, s.at, s.front)
    ensures s.at[s.front].pos < p.n && p.c.Some?
  {
  }

  ghost function Taken<T>(s: Shape<T>): Shape<T>
  {
    s.(front := s.front + 1)
  }

  lemma TakenKeeps<T>(p: Pipe<T>, s: Shape<T>, t: Shape<T>)
    requires Rep(p, s) && Prefetched(s) && s.at[s.front].pos + 1 < p.n && t == Taken(s)
    ensures Ordered(t) && Linked(p.heap, p.n, t) && Stored(p.heap, t) && SameChunk(t)
  {
    hide Owned, WriterKnows, ReaderKnows, WordKnows, SlotHolds;
    assert LinkAt(p.heap, p.n, s.at, s.front);
  }

  lemma TakenAbs<T>(p: Pipe<T>, s: Shape<T>, q: Pipe<T>, t: Shape<T>)
    requires Ordered(s) && s.front < s.w && Ordered(t) && t.log == s.log && t.front == s.front + 1 && t.w == s.w && t.f == s.f
    requires q.c == p.c && !p.rpc.RFree?
    ensures q.rpc.RIdle? ==> Step(Abs(p, s), ReadGot(s.log[s.front]), Abs(q, t))
    ensures q.rpc.RFree? && q.rpc.item == s.log[s.front] ==> Abs(q, t) == Abs(p, s)
  {
    assert s.log[s.front..s.w] == [s.log[s.front]] + t.log[t.front..t.w];
  }

  lemma TakeFrontSim<T>(p: Pipe<T>, s: Shape<T>) returns (t: Shape<T>)
    requires Rep(p, s) && p.rpc.RTake?
    ensures Simulated(p, s, TakeFrontStep(p), t)
  {
    hide Spread, Linked, Stored, SameChunk, WriterKnows, Live, Abs;
    FrontItem(p, s);
    var q := TakeFrontStep(p).pipe;
    if p.beginPos + 1 != p.n {
      t := Taken(s);
      TakenKeeps(p, s, t);
      TakenAbs(p, s, q, t);
    } else {
      t := s;
      assert Abs(q, t) == Abs(p, s) by { StillThere(p, s, q); }
    }
    WriterKeeps(p, s, q, t);
  }

  lemma StillThere<T>(p: Pipe<T>, s: Shape<T>, q: Pipe<T>)
    requires Ordered(s) && q.c == p.c && !q.rpc.RFree? && !p.rpc.RFree?
    ensures Abs(q, s) == Abs(p, s)
  {
  }

  lemma FollowNextSim<T>(p: Pipe<T>, s: Shape<T>) returns (t: Shape<T>)
    requires Rep(p, s) && p.rpc.RNext?
    ensures Simulated(p, s, FollowNextStep(p), t)
  {
    hide Spread, Linked, Stored, SameChunk, WriterKnows, Live, Abs;
    FrontItem(p, s);
    t := s;
    var q := FollowNextStep(p).pipe;
    StillThere(p, s, q);
    WriterKeeps(p, s, q, t);
  }

  /** Clearing `prev` of the reader's new chunk: the writer never walks back that far. */
  lemma ClearPrevKeeps<T>(p: Pipe<T>, s: Shape<T>)
    requires Rep(p, s) && p.rpc.RClear?
    ensures p.beginChunk in p.heap && s.at[s.front + 1].pos == 0
    ensures var heap := p.heap[p.beginChunk := p.heap[p.beginChunk].(prev := None)];
            Linked(heap, p.n, s) && Stored(heap, s)
  {
    hide Owned, WriterKnows, WordKnows;
    assert LinkAt(p.heap, p.n, s.at, s.front);
    var heap := p.heap[p.beginChunk := p.heap[p.beginChunk].(prev := None)];
    forall i | s.lo <= i < |s.at| - 1 ensures LinkAt(heap, p.n, s.at, i) { assert LinkAt(p.heap, p.n, s.at, i); }
    forall i | s.f <= i < |s.at| - 1 ensures BackLinkAt(heap, p.n, s.at, i) {
      assert LinkAt(p.heap, p.n, s.at, i);
      assert BackLinkAt(p.heap, p.n, s.at, i);
      assert Apart(s.at, s.front + 1, i + 1);
    }
    forall i | s.front <= i < |s.log| ensures SlotHolds(heap, s.at[i], s.log[i]) { assert SlotHolds(p.heap, s.at[i], s.log[i]); }
  }

  lemma ClearPrevSim<T>(p: Pipe<T>, s: Shape<T>) returns (t: Shape<T>)
    requires Rep(p, s) && p.rpc.RClear?
    ensures Simulated(p, s, ClearPrevStep(p), t)
  {
    hide Spread, Linked, Stored, SameChunk, WriterKnows, Live, Abs;
    t := s;
    ClearPrevKeeps(p, s);
    var q := ClearPrevStep(p).pipe;
    StillThere(p, s, q);
    WriterKeeps(p, s, q, t);
  }

  /** The reader leaves its first chunk behind. */
  lemma LeaveChunk<T>(p: Pipe<T>, s: Shape<T>, t: Shape<T>)
    requires Rep(p, s) && p.rpc.RXchg? && t == s.(lo := s.front + 1, front := s.front + 1)
    ensures Ordered(t) && Spread(p.n, t.at, t.lo) && Linked(p.heap, p.n, t) && Stored(p.heap, t) && SameChunk(t)
    ensures Live(t.at, t.lo) == Live(s.at, s.lo) - {p.rpc.retired} && p.rpc.retired in Live(s.at, s.lo)
    ensures s.at[s.front + 1] == p.Front() && p.c.Some?
  {
    hide Owned, WriterKnows, SlotHolds, BackLinkAt;
    assert LinkAt(p.heap, p.n, s.at, s.front);
    LiveAt(s, s.front);
    forall i | t.lo <= i < |t.at| ensures t.at[i].chunk != p.rpc.retired { assert Apart(s.at, s.front, i); }
  }

  lemma PutSpareSim<T>(p: Pipe<T>, s: Shape<T>) returns (t: Shape<T>)
    requires Rep(p, s) && p.rpc.RXchg?
    ensures Simulated(p, s, PutSpareStep(p), t)
  {
    hide Spread, Linked, Stored, SameChunk, WriterKnows, Live, Abs;
    t := s.(lo := s.front + 1, front := s.front + 1);
    var q := PutSpareStep(p).pipe;
    LeaveChunk(p, s, t);
    TakenAbs(p, s, q, t);
    WriterKeeps(p, s, q, t);
  }

  lemma FreeSpareSim<T>(p: Pipe<T>, s: Shape<T>) returns (t: Shape<T>)
    requires Rep(p, s) && p.rpc.RFree?
    ensures Simulated(p, s, FreeSpareStep(p), t)
  {
    hide Spread, Linked, Stored, SameChunk, WriterKnows, Live;
    t := s;
    var q := FreeSpareStep(p).pipe;
    ValuesSized(p, s);
    HeapFrame(p.heap, q.heap, p.n, s);
    WriterKeeps(p, s, q, t);
    assert Abs(p, s).queue == [p.rpc.item] + Abs(q, t).queue;
  }

  // ---- the whole pipe ----

  lemma BeginSim<T>(p: Pipe<T>, s: Shape<T>, a: Action<T>)
    requires Rep(p, s) && Enabled(p, a) && !a.MoveWriter? && !a.MoveReader?
    ensures Simulated(p, s, Move(p, a), s)
  {
    hide Spread, Linked, Stored, SameChunk, Live;
  }

  lemma WriterSim<T>(p: Pipe<T>, s: Shape<T>, b: Block<T>) returns (t: Shape<T>)
    requires Rep(p, s) && WriterEnabled(p, b)
    ensures Simulated(p, s, WriterStep(p, b), t)
  {
    hide Rep, Simulated, StoreStep, TakeSpareStep, AllocStep, LinkStep, BackLinkStep, UnPushBackStep, UnPushEndStep,
      FreeEndStep, ClearNextStep, TakeBackStep, FlushCasStep, FlushSetStep;
    match p.wpc
    case WStore(_, _) => t := StoreSim(p, s);
    case WXchg(_, _) => t := TakeSpareSim(p, s);
    case WAlloc(_, _) => t := AllocSim(p, s, b);
    case WLink(_, _, _) => t := LinkSim(p, s);
    case WBackLink(_, _, _) => t := BackLinkSim(p, s);
    case UStart => t := UnPushBackSim(p, s);
    case UEnd => t := UnPushEndSim(p, s);
    case UFree => t := FreeEndSim(p, s);
    case UNull => t := ClearNextSim(p, s);
    case UTake => t := TakeBackSim(p, s);
    case FCas => t := FlushCasSim(p, s);
    case FSet => t := FlushSetSim(p, s);
  }

  lemma ReaderSim<T>(p: Pipe<T>, s: Shape<T>) returns (t: Shape<T>)
    requires Rep(p, s) && !p.rpc.RIdle?
    ensures Simulated(p, s, ReaderStep(p), t)
  {
    hide Rep, Simulated, CheckStep, TakeFrontStep, FollowNextStep, ClearPrevStep, PutSpareStep, FreeSpareStep;
    match p.rpc
    case RCheck(_) => t := CheckSim(p, s);
    case RTake => t := TakeFrontSim(p, s);
    case RNext(_) => t := FollowNextSim(p, s);
    case RClear(_, _) => t := ClearPrevSim(p, s);
    case RXchg(_, _) => t := PutSpareSim(p, s);
    case RFree(_, _) => t := FreeSpareSim(p, s);
  }

  /** One step of either thread, from any state the invariant allows: no fault, the invariant
      again, and either nothing visible or one operation of the atomic queue. */
  lemma Simulation<T>(p: Pipe<T>, s: Shape<T>, a: Action<T>) returns (t: Shape<T>)
    requires Rep(p, s) && Enabled(p, a)
    ensures Move(p, a).Next? && Rep(Move(p, a).pipe, t)
    ensures match Move(p, a).event
            case None => Abs(Move(p, a).pipe, t) == Abs(p, s)
            case Some(e) => Step(Abs(p, s), e, Abs(Move(p, a).pipe, t))
  {
    hide Rep, WriterStep, ReaderStep;
    match a
    case MoveWriter(b) => t := WriterSim(p, s, b);
    case MoveReader => t := ReaderSim(p, s);
    case _ => t := s; BeginSim(p, s, a);
  }

  predicate Allocated<T>(n: nat, first: Block<T>, second: Block<T>)
  {
    |first.contents.values| == n && |second.contents.values| == n && first.id != second.id
  }

  lemma InitRep<T>(n: nat, first: Block<T>, second: Block<T>) returns (s: Shape<T>)
    requires n >= 1 && Allocated(n, first, second)
    ensures Rep(Init(n, first, second), s) && Abs(Init(n, first, second), s) == Fifo([], [], [], false)
  {
    var p := Init(n, first, second);
    s := Shape([Addr(first.id, 0), Addr(p.endChunk, p.endPos)], 0, 0, Some(0), 0, 0, []);
    assert LinkAt(p.heap, n, s.at, 0) && BackLinkAt(p.heap, n, s.at, 0) && Apart(s.at, 0, 1);
    assert s.at[0].chunk in Live(s.at, 0) && s.at[1].chunk in Live(s.at, 0);
  }
}
