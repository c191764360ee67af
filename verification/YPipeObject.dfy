/** src/base/ypipe.h and src/base/yqueue.h as they are written: an object whose methods update
    its fields.  A call here runs alone; that it does the same work as the steps of module YPipe,
    one after the other, is its contract, and so is its meaning for the atomic queue. */
module YPipeObject {
  import opened Wrappers
  import opened AtomicQueue
  import opened YPipe
  import opened YPipeProof
  import opened Runs = YPipeRuns

  /** The writer's operation, uninterrupted; `b` is what malloc returns if it is called. */
  function FinishWriter<T>(p: Pipe<T>, b: Block<T>): Option<(Pipe<T>, Event<T>)>
    decreases WriterRank(p.wpc)
  {
    if !WriterEnabled(p, b) then None
    else match WriterStep(p, b)
      case Fault => None
      case Next(q, Some(e)) => Some((q, e))
      case Next(q, None) => FinishWriter(q, b)
  }

  /** The reader's operation, uninterrupted. */
  function FinishReader<T>(p: Pipe<T>): Option<(Pipe<T>, Event<T>)>
    decreases ReaderRank(p.rpc)
  {
    if p.rpc.RIdle? then None
    else match ReaderStep(p)
      case Fault => None
      case Next(q, Some(e)) => Some((q, e))
      case Next(q, None) => FinishReader(q)
  }

  /** An uninterrupted operation is one step of the atomic queue. */
  lemma FinishWriterSim<T>(p: Pipe<T>, s: Shape<T>, b: Block<T>) returns (t: Shape<T>)
    requires Rep(p, s) && !p.wpc.WIdle? && CanFinish(p, b)
    ensures FinishWriter(p, b).Some?
    ensures var (q, e) := FinishWriter(p, b).value; Rep(q, t) && q.wpc.WIdle? && q.rpc == p.rpc && Step(Abs(p, s), e, Abs(q, t))
    decreases WriterRank(p.wpc)
  {
    hide Rep, Abs, Step;
    t := Simulation(p, s, MoveWriter(b));
    var res := WriterStep(p, b);
    if res.event.None? {
      t := FinishWriterSim(res.pipe, t, b);
    }
  }

  lemma FinishReaderSim<T>(p: Pipe<T>, s: Shape<T>) returns (t: Shape<T>)
    requires Rep(p, s) && !p.rpc.RIdle?
    ensures FinishReader(p).Some?
    ensures var (q, e) := FinishReader(p).value; Rep(q, t) && q.rpc.RIdle? && q.wpc == p.wpc && Step(Abs(p, s), e, Abs(q, t))
    decreases ReaderRank(p.rpc)
  {
    hide Rep, Abs, Step;
    t := Simulation(p, s, MoveReader);
    var res := ReaderStep(p);
    if res.event.None? {
      t := FinishReaderSim(res.pipe, t);
    }
  }

  /** Write, up to the test of end_pos_ and to its end. */
  lemma WriteAlone<T>(p: Pipe<T>, s: Shape<T>, value: T, incomplete: bool, b: Block<T>) returns (m: Shape<T>, t: Shape<T>)
    requires Rep(p, s) && p.wpc.WIdle? && p.rpc.RIdle? && Mallocable(p, b)
    ensures Ordered(s) && p.backChunk in p.heap && p.backPos < |p.heap[p.backChunk].values|
    ensures var p0 := p.(wpc := WStore(value, incomplete));
            var p1 := p.(heap := p.heap[p.backChunk := p.heap[p.backChunk].(values := p.heap[p.backChunk].values[p.backPos := value])],
                         backChunk := p.endChunk, backPos := p.endPos, endPos := p.endPos + 1);
            && FinishWriter(p0, b).Some? && Rep(FinishWriter(p0, b).value.0, t)
            && Step(Abs(p, s), FinishWriter(p0, b).value.1, Abs(FinishWriter(p0, b).value.0, t))
            && (p1.endPos == p.n ==> Rep(p1.(wpc := WXchg(value, incomplete)), m) && Mallocable(p1, b)
                                     && FinishWriter(p0, b) == FinishWriter(p1.(wpc := WXchg(value, incomplete)), b))
            && (p1.endPos != p.n ==> FinishWriter(p0, b) == Some((p1.(f := if incomplete then p.f else p1.Back()), Wrote(value, incomplete))))
  {
    hide Rep, Abs, Step;
    Sorted(p, s);
    BeginSim(p, s, BeginWrite(value, incomplete));
    var p0 := p.(wpc := WStore(value, incomplete));
    m := Simulation(p0, s, MoveWriter(b));
    t := FinishWriterSim(p0, s, b);
  }

  /** Flush needs no allocation. */
  lemma FlushAlone<T>(p: Pipe<T>, s: Shape<T>) returns (t: Shape<T>)
    requires Rep(p, s) && p.wpc.FCas?
    ensures var ok := p.w == p.f || p.c == Some(p.w);
            var q := if p.w == p.f then p.(wpc := WIdle) else p.(c := Some(p.f), w := p.f, wpc := WIdle);
            Rep(q, t) && Step(Abs(p, s), Flushed(ok), Abs(q, t))
  {
    hide Rep, Abs, Step;
    var b: Block<T> := Block(0, Chunk([], None, None));
    t := FinishWriterSim(p, s, b);
    if p.w != p.f && p.c != Some(p.w) {
      assert FinishWriter(p, b) == FinishWriter(p.(wpc := FSet), b);
    }
  }

  /** The steps by which UnPush moves `end`. */
  function UnPushEndDone<T>(p: Pipe<T>): Option<Pipe<T>>
    requires p.wpc.UEnd?
  {
    match UnPushEndStep(p)
    case Fault => None
    case Next(q, _) =>
      if !q.wpc.UFree? then Some(q)
      else match FreeEndStep(q)
        case Fault => None
        case Next(z, _) => (match ClearNextStep(z) case Fault => None case Next(x, _) => Some(x))
  }

  /** UnWrite: nothing to take back, or `back` moves, `end` moves, and the item is read. */
  lemma UnWriteAlone<T>(p: Pipe<T>, s: Shape<T>) returns (u: Pipe<T>, m: Shape<T>, t: Shape<T>)
    requires Rep(p, s) && p.wpc.WIdle? && p.rpc.RIdle?
    ensures Ordered(s)
    ensures p.f == p.Back() ==> Step(Abs(p, s), UnWrote(None), Abs(p, s))
    ensures p.f != p.Back() ==>
              && UnPushBackStep(p.(wpc := UStart)) == Next(u, None) && u.wpc.UEnd? && Rep(u, m)
              && UnPushEndDone(u).Some? && UnPushEndDone(u).value.wpc.UTake?
              && var x := UnPushEndDone(u).value;
                 TakeBackStep(x).Next? && Rep(x.(wpc := WIdle), t)
                 && Step(Abs(p, s), TakeBackStep(x).event.value, Abs(x.(wpc := WIdle), t))
  {
    hide Rep, Abs, Step, UnPushEndDone;
    var b: Block<T> := Block(0, Chunk([], None, None));
    Sorted(p, s);
    BeginSim(p, s, BeginUnWrite);
    m := Simulation(p.(wpc := UStart), s, MoveWriter(b));
    t := m;
    u := UnPushBackStep(p.(wpc := UStart)).pipe;
    if p.f == p.Back() {
      Sorted(p, m);
      NothingToTake(p, s, m);
    } else {
      Sorted(u, m);
      t := UnPushEndAlone(u, m);
      t := Simulation(UnPushEndDone(u).value, t, MoveWriter(b));
    }
  }

  lemma UnPushEndAlone<T>(u: Pipe<T>, m: Shape<T>) returns (t: Shape<T>)
    requires Rep(u, m) && u.wpc.UEnd? && Ordered(m)
    ensures UnPushEndDone(u).Some?
    ensures var x := UnPushEndDone(u).value; x.wpc.UTake? && x.rpc == u.rpc && Rep(x, t) && Ordered(t) && Abs(x, t) == Abs(u, m)
  {
    hide Rep, Abs, Step;
    var b: Block<T> := Block(0, Chunk([], None, None));
    t := Simulation(u, m, MoveWriter(b));
    var x := UnPushEndStep(u).pipe;
    Sorted(x, t);
    if x.wpc.UFree? {
      t := Simulation(x, t, MoveWriter(b));
      Sorted(FreeEndStep(x).pipe, t);
      t := Simulation(FreeEndStep(x).pipe, t, MoveWriter(b));
      Sorted(ClearNextStep(FreeEndStep(x).pipe).pipe, t);
    }
  }

  /** A false answer of UnWrite leaves the queue as it is. */
  lemma NothingToTake<T>(p: Pipe<T>, s: Shape<T>, t: Shape<T>)
    requires Ordered(s) && Ordered(t) && Step(Abs(p, s), UnWrote(None), Abs(p, t))
    ensures Step(Abs(p, s), UnWrote(None), Abs(p, s))
  {
  }

  /** CheckRead, and the check with which Read begins, make the same step. */
  lemma CheckAlone<T>(p: Pipe<T>, s: Shape<T>) returns (t: Shape<T>, u: Shape<T>)
    requires Rep(p, s) && p.wpc.WIdle? && p.rpc.RIdle?
    ensures Ordered(s)
    ensures var q := CheckStep(p.(rpc := RCheck(false))); var v := CheckStep(p.(rpc := RCheck(true)));
            && q.Next? && q.event.Some? && Rep(q.pipe, t) && Step(Abs(p, s), q.event.value, Abs(q.pipe, t))
            && v.Next? && Rep(v.pipe, u)
            && (v.event.None? ==> Rep(v.pipe.(rpc := RIdle), u) && Abs(v.pipe.(rpc := RIdle), u) == Abs(p, s)
                                  && Step(Abs(p, s), q.event.value, Abs(p, s)))
  {
    hide Rep, Abs, Step;
    Sorted(p, s);
    BeginSim(p, s, BeginCheckRead);
    BeginSim(p, s, BeginRead);
    t := Simulation(p.(rpc := RCheck(false)), s, MoveReader);
    u := Simulation(p.(rpc := RCheck(true)), s, MoveReader);
    var v := CheckStep(p.(rpc := RCheck(true)));
    Sorted(v.pipe, u);
    if v.event.None? {
      Rechecked(v.pipe, u);
      assert Step(Abs(p, s), Checked(true), Abs(p, s)) by {
        var q := CheckStep(p.(rpc := RCheck(false)));
        Sorted(q.pipe, t);
        FoundItem(Abs(p, s), Abs(q.pipe, t));
      }
    }
  }

  lemma FoundItem<T>(a: Fifo<T>, b: Fifo<T>)
    requires Step(a, Checked(true), b)
    ensures Step(a, Checked(true), a)
  {
  }

  lemma NothingRead<T>(a: Fifo<T>, b: Fifo<T>)
    requires Step(a, Checked(false), b)
    ensures Step(a, ReadNothing, b)
  {
  }

  lemma Rechecked<T>(p: Pipe<T>, s: Shape<T>)
    requires Rep(p, s) && p.rpc.RTake?
    ensures Rep(p.(rpc := RIdle), s) && Abs(p.(rpc := RIdle), s) == Abs(p, s)
  {
    hide Spread, Linked, Stored, SameChunk, Live;
  }

  lemma TakeAlone<T>(p: Pipe<T>, s: Shape<T>) returns (t: Shape<T>)
    requires Rep(p.(rpc := RTake), s) && p.wpc.WIdle? && p.rpc.RIdle?
    ensures Ordered(s) && TakeFrontStep(p.(rpc := RTake)).Next?
    ensures FinishReader(p.(rpc := RTake)).Some?
    ensures var (q, e) := FinishReader(p.(rpc := RTake)).value; Rep(q, t) && Step(Abs(p, s), e, Abs(q, t))
  {
    hide Rep, Step, Spread, Linked;
    var m := Simulation(p.(rpc := RTake), s, MoveReader);
    Sorted(p.(rpc := RTake), s);
    t := FinishReaderSim(p.(rpc := RTake), s);
    assert Abs(p, s) == Abs(p.(rpc := RTake), s);
  }

  class YPipeObject<T> {
    const n: nat
    var heap: map<ChunkId, Chunk<T>>
    var spare: Option<ChunkId>
    var c: Option<Addr>
    var beginChunk: ChunkId
    var beginPos: nat
    var r: Option<Addr>
    var backChunk: ChunkId
    var backPos: nat
    var endChunk: ChunkId
    var endPos: nat
    var w: Addr
    var f: Addr
    ghost var shape: Shape<T>

    ghost function State(): Pipe<T>
      reads this
    {
      Pipe(n, heap, spare, c, beginChunk, beginPos, r, RIdle, backChunk, backPos, endChunk, endPos, w, f, WIdle)
    }

    ghost predicate Valid()
      reads this
    {
      Rep(State(), shape)
    }

    /** The atomic queue this object stands for. */
    ghost function Queue(): Fifo<T>
      reads this
      requires Valid()
    {
      Abs(State(), shape)
    }

    constructor (n: nat, first: Block<T>, second: Block<T>)
      requires n >= 1 && Allocated(n, first, second)
      ensures this.n == n && State() == Init(n, first, second)
      ensures Valid() && Queue() == Fifo([], [], [], false)
    {
      this.n := n;
      // YQueue(): one chunk; then the terminator is pushed
      beginChunk, beginPos, spare := first.id, 0, None;
      backChunk, backPos := first.id, 0;
      if n == 1 {
        heap := map[first.id := first.contents.(next := Some(second.id)),
                    second.id := second.contents.(prev := Some(first.id))];
        endChunk, endPos := second.id, 0;
      } else {
        heap := map[first.id := first.contents];
        endChunk, endPos := first.id, 1;
      }
      r, w, f, c := Some(Addr(first.id, 0)), Addr(first.id, 0), Addr(first.id, 0), Some(Addr(first.id, 0));
      new;
      ghost var s := InitRep(n, first, second);
      shape := s;
    }

    function Back(): Addr reads this { Addr(backChunk, backPos) }

    function Front(): Addr reads this { Addr(beginChunk, beginPos) }

    /** The second half of Push, when the end chunk is full: link the spare chunk, or a new one. */
    method AppendChunk(block: Block<T>, ghost item: T, ghost incomplete: bool)
      requires Rep(State().(wpc := WXchg(item, incomplete)), shape) && Mallocable(State(), block)
      modifies `heap, `spare, `endChunk, `endPos
      ensures FinishWriter(old(State()).(wpc := WXchg(item, incomplete)), block)
           == Some((State().(f := if incomplete then f else Back()), Wrote(item, incomplete)))
    {
      hide Rep, Abs, AtomicQueue.Step;
      ghost var p := State().(wpc := WXchg(item, incomplete));
      ghost var s := Simulation(p, shape, MoveWriter(block));
      ghost var q := WriterStep(p, block).pipe;
      assert FinishWriter(p, block) == FinishWriter(q, block);
      var sc := spare;
      spare := None;
      if sc.None? {
        s := Simulation(q, s, MoveWriter(block));
        assert FinishWriter(q, block) == FinishWriter(WriterStep(q, block).pipe, block);
        q := WriterStep(q, block).pipe;
        heap := heap[block.id := block.contents];
        sc := Some(block.id);
      }
      assert q == State().(wpc := WLink(item, incomplete, sc.value));
      LinkChunk(block, item, incomplete, sc.value, s);
    }

    method LinkChunk(ghost block: Block<T>, ghost item: T, ghost incomplete: bool, sc: ChunkId, ghost s: Shape<T>)
      requires Rep(State().(wpc := WLink(item, incomplete, sc)), s)
      modifies `heap, `endChunk, `endPos
      ensures FinishWriter(old(State()).(wpc := WLink(item, incomplete, sc)), block)
           == Some((State().(f := if incomplete then f else Back()), Wrote(item, incomplete)))
    {
      hide Rep, Abs, AtomicQueue.Step;
      ghost var p := State().(wpc := WLink(item, incomplete, sc));
      ghost var s1 := Simulation(p, s, MoveWriter(block));
      heap := heap[endChunk := heap[endChunk].(next := Some(sc))];
      ghost var q := State().(wpc := WBackLink(item, incomplete, sc));
      assert FinishWriter(p, block) == FinishWriter(q, block);
      ghost var s2 := Simulation(q, s1, MoveWriter(block));
      heap := heap[sc := heap[sc].(prev := Some(endChunk))];
      endChunk := heap[endChunk].next.value;
      endPos := 0;
    }

    method Write(value: T, incomplete: bool, block: Block<T>)
      requires Valid() && Mallocable(State(), block)
      modifies this
      ensures FinishWriter(old(State()).(wpc := WStore(value, incomplete)), block) == Some((State(), Wrote(value, incomplete)))
      ensures Valid() && AtomicQueue.Step(old(Queue()), Wrote(value, incomplete), Queue())
    {
      hide Rep, Abs, AtomicQueue.Step, FinishWriter;
      ghost var s, t := WriteAlone(State(), shape, value, incomplete, block);
      ghost var p := State().(wpc := WStore(value, incomplete));
      // queue_.Back() = value_; queue_.Push()
      heap := heap[backChunk := heap[backChunk].(values := heap[backChunk].values[backPos := value])];
      backChunk, backPos, endPos := endChunk, endPos, endPos + 1;
      if endPos == n {
        shape := s;
        AppendChunk(block, value, incomplete);
      }
      if !incomplete {
        f := Back();
      }
      shape := t;
    }

    /** UnPush, after `back` has moved. */
    method UnPushEnd(ghost s: Shape<T>)
      requires Rep(State().(wpc := UEnd), s)
      modifies `endChunk, `endPos, `heap
      ensures UnPushEndDone(old(State()).(wpc := UEnd)) == Some(State().(wpc := UTake))
    {
      hide Rep, Abs, AtomicQueue.Step;
      ghost var b: Block<T> := Block(0, Chunk([], None, None));
      ghost var m := Simulation(State().(wpc := UEnd), s, MoveWriter(b));
      if endPos > 0 {
        endPos := endPos - 1;
      } else {
        endPos := n - 1;
        endChunk := heap[endChunk].prev.value;
        m := Simulation(State().(wpc := UFree), m, MoveWriter(b));
        heap := Free(heap, heap[endChunk].next);
        m := Simulation(State().(wpc := UNull), m, MoveWriter(b));
        heap := heap[endChunk := heap[endChunk].(next := None)];
      }
    }

    method UnWrite() returns (value: Option<T>)
      requires Valid()
      modifies this
      ensures Valid() && AtomicQueue.Step(old(Queue()), UnWrote(value), Queue())
    {
      hide Rep, Abs, AtomicQueue.Step, UnPushEndDone;
      ghost var u, m, t := UnWriteAlone(State(), shape);
      if f == Back() {
        return None;
      }
      // queue_.UnPush()
      if backPos > 0 {
        backPos := backPos - 1;
      } else {
        backPos := n - 1;
        backChunk := heap[backChunk].prev.value;
      }
      UnPushEnd(m);
      value := Some(heap[backChunk].values[backPos]);
      shape := t;
    }

    method Flush() returns (ok: bool)
      requires Valid()
      modifies this
      ensures Valid() && AtomicQueue.Step(old(Queue()), Flushed(ok), Queue())
    {
      hide Rep, Abs, AtomicQueue.Step;
      Sorted(State(), shape);
      BeginSim(State(), shape, BeginFlush);
      ghost var p := State().(wpc := FCas);
      ghost var t := FlushAlone(p, shape);
      if w == f {
        ok := true;
      } else {
        // c_.Cas(w_, f_)
        var before := c;
        if c == Some(w) { c := Some(f); }
        if before != Some(w) {
          c := Some(f);
          w := f;
          ok := false;
        } else {
          w := f;
          ok := true;
        }
      }
      shape := t;
    }

    method CheckRead() returns (available: bool)
      requires Valid()
      modifies this
      ensures Valid() && AtomicQueue.Step(old(Queue()), Checked(available), Queue())
      ensures available ==> Rep(State().(rpc := RTake), shape) && Queue() == old(Queue())
      ensures CheckStep(old(State()).(rpc := RCheck(true)))
           == if available then Next(State().(rpc := RTake), None) else Next(State(), Some(ReadNothing))
    {
      hide Rep, Abs, AtomicQueue.Step;
      ghost var t, u := CheckAlone(State(), shape);
      if Some(Front()) != r && r.Some? {
        shape := u;
        return true;
      }
      // r_ = c_.Cas(&queue_.Front(), NULL)
      r := c;
      if c == Some(Front()) { c := None; }
      if Some(Front()) == r || r.None? {
        shape := t;
        return false;
      }
      shape := u;
      available := true;
    }

    method Read() returns (value: Option<T>)
      requires Valid()
      modifies this
      ensures Valid()
      ensures AtomicQueue.Step(old(Queue()), if value.Some? then ReadGot(value.value) else ReadNothing, Queue())
    {
      hide Rep, Abs, AtomicQueue.Step, CheckStep;
      var available := CheckRead();
      if !available {
        NothingRead(old(Queue()), Queue());
        return None;
      }
      ghost var t := TakeAlone(State(), shape);
      value := Some(heap[beginChunk].values[beginPos]);
      Pop(value.value, shape);
      shape := t;
    }

    /** Pop, after the item was read. */
    method Pop(ghost item: T, ghost s: Shape<T>)
      requires Rep(State().(rpc := RTake), s) && TakeFrontStep(State().(rpc := RTake)).Next?
      requires item == heap[beginChunk].values[beginPos]
      modifies this
      ensures FinishReader(old(State()).(rpc := RTake)) == Some((State(), ReadGot(item)))
    {
      hide Rep, Abs, AtomicQueue.Step;
      ghost var p := State().(rpc := RTake);
      ghost var m := Simulation(p, s, MoveReader);
      beginPos := beginPos + 1;
      if beginPos == n {
        LeaveChunk(item, m);
      }
    }

    /** The second half of Pop, when the begin chunk is used up. */
    method LeaveChunk(ghost item: T, ghost s: Shape<T>)
      requires Rep(State().(rpc := RNext(item)), s)
      modifies `beginChunk, `beginPos, `heap, `spare
      ensures FinishReader(old(State()).(rpc := RNext(item))) == Some((State(), ReadGot(item)))
    {
      hide Rep, Abs, AtomicQueue.Step;
      var o := beginChunk;
      ghost var m := Simulation(State().(rpc := RNext(item)), s, MoveReader);
      beginChunk := heap[beginChunk].next.value;
      ghost var p := State().(rpc := RClear(item, o));
      assert FinishReader(old(State()).(rpc := RNext(item))) == FinishReader(p);
      m := Simulation(p, m, MoveReader);
      heap := heap[beginChunk := heap[beginChunk].(prev := None)];
      beginPos := 0;
      ghost var q := State().(rpc := RXchg(item, o));
      assert FinishReader(p) == FinishReader(q);
      // chunk_t *cs = spare_chunk_.Xchg(o)
      m := Simulation(q, m, MoveReader);
      var cs := spare;
      spare := Some(o);
      ghost var z := State().(rpc := RFree(item, cs));
      assert FinishReader(q) == FinishReader(z);
      m := Simulation(z, m, MoveReader);
      heap := Free(heap, cs);
    }

    /** ~YQueue: free the list from begin to end, then the spare chunk; nothing stays allocated. */
    method Destroy()
      requires Valid()
      modifies this
      ensures heap == map[]
    {
      hide Rep;
      ghost var p := State();
      Runs.DestroyIdle(p, shape);
      while beginChunk != endChunk
        invariant Runs.FreeList(heap, beginChunk, endChunk) == Runs.FreeList(p.heap, p.beginChunk, p.endChunk)
        invariant spare == p.spare
        decreases |heap|
      {
        var o := beginChunk;
        beginChunk := heap[beginChunk].next.value;
        Runs.FewerChunks(heap, o);
        heap := heap - {o};
      }
      heap := heap - {beginChunk};
      // chunk_t *sc = spare_chunk_.Xchg(NULL)
      var sc := spare;
      spare := None;
      heap := Free(heap, sc);
    }
  }
}
