/** Whole runs of the pipe: any schedule of the two threads, any length, any N >= 1. */
module YPipeRuns {
  import opened Wrappers
  import opened AtomicQueue
  import opened YPipe
  import opened YPipeProof

  /** The state a schedule leads to, with the operations that returned on the way; `None` if some
      step touched memory that was not allocated.  A choice that is not possible is skipped. */
  function Run<T>(p: Pipe<T>, schedule: seq<Action<T>>): Option<(Pipe<T>, seq<Event<T>>)>
    decreases |schedule|
  {
    if schedule == [] then Some((p, []))
    else if !Enabled(p, schedule[0]) then Run(p, schedule[1..])
    else match Move(p, schedule[0])
      case Fault => None
      case Next(q, e) =>
        match Run(q, schedule[1..])
        case None => None
        case Some((z, events)) => Some((z, (if e.Some? then [e.value] else []) + events))
  }

  /** The atomic queue can go from `a` to `b` by `events`, one after the other. */
  ghost predicate Accepts<T(!new)>(a: Fifo<T>, events: seq<Event<T>>, b: Fifo<T>)
    decreases |events|
  {
    if events == [] then a == b else exists m :: Step(a, events[0], m) && Accepts(m, events[1..], b)
  }

  lemma RunFrom<T(!new)>(p: Pipe<T>, s: Shape<T>, schedule: seq<Action<T>>) returns (t: Shape<T>)
    requires Rep(p, s)
    ensures Run(p, schedule).Some? && Rep(Run(p, schedule).value.0, t)
    ensures Accepts(Abs(p, s), Run(p, schedule).value.1, Abs(Run(p, schedule).value.0, t))
    decreases |schedule|
  {
    hide Rep, Abs, Move, Enabled;
    if schedule == [] {
      t := s;
    } else if !Enabled(p, schedule[0]) {
      t := RunFrom(p, s, schedule[1..]);
    } else {
      var m := Simulation(p, s, schedule[0]);
      var next := Move(p, schedule[0]);
      t := RunFrom(next.pipe, m, schedule[1..]);
      if next.event.Some? {
        var events := Run(p, schedule).value.1;
        assert events[0] == next.event.value && events[1..] == Run(next.pipe, schedule[1..]).value.1;
      } else {
        assert Run(p, schedule).value.1 == Run(next.pipe, schedule[1..]).value.1;
      }
    }
  }

  /** YPipe refines the atomic queue, and no schedule touches freed or unallocated memory. */
  lemma Refinement<T(!new)>(n: nat, first: Block<T>, second: Block<T>, schedule: seq<Action<T>>)
    requires n >= 1 && Allocated(n, first, second)
    ensures var run := Run(Init(n, first, second), schedule);
            run.Some? && exists b :: Accepts(Fifo([], [], [], false), run.value.1, b)
  {
    var s := InitRep(n, first, second);
    var t := RunFrom(Init(n, first, second), s, schedule);
  }

  /** At every point of every schedule: the slots `s.at[s.lo..]` are the linked list, each in an
      allocated chunk and followed by the next one; each allocated chunk is in the list, in the
      spare slot or in the hand of one thread, and in only one of them; front <= r <= w <= f <= back,
      where the pointers of these names stand for slots of the list, which begins at begin_chunk_ and
      ends at end_chunk_ when its thread is not moving them; and although chunks are recycled, two
      live slots have the same address only if they are the same slot. */
  lemma OwnedAndDistinct<T(!new)>(n: nat, first: Block<T>, second: Block<T>, schedule: seq<Action<T>>) returns (s: Shape<T>)
    requires n >= 1 && Allocated(n, first, second)
    ensures Run(Init(n, first, second), schedule).Some?
    ensures var p := Run(Init(n, first, second), schedule).value.0;
            && Rep(p, s)
            && ListIs(p, s)
            && p.heap.Keys == Live(s.at, s.lo) + ToSet(p.spare) + WriterHand(p.wpc) + ReaderHand(p.rpc)
            && Live(s.at, s.lo) !! ToSet(p.spare) !! WriterHand(p.wpc) !! ReaderHand(p.rpc)
            && PointersAre(p, s)
            && forall i, j :: s.lo <= i < |s.at| && s.lo <= j < |s.at| ==> (s.at[i] == s.at[j] <==> i == j)
  {
    var start := InitRep(n, first, second);
    s := RunFrom(Init(n, first, second), start, schedule);
    OwnedNow(Run(Init(n, first, second), schedule).value.0, s);
  }

  /** `s.at[s.lo..]` are the slots met on the way along `next` from begin_chunk_ to end_chunk_. */
  ghost predicate ListIs<T>(p: Pipe<T>, s: Shape<T>)
  {
    && s.lo < |s.at|
    && (forall i :: s.lo <= i < |s.at| ==> s.at[i].chunk in p.heap && s.at[i].pos < p.n)
    && (forall i :: s.lo <= i < |s.at| - 1 ==> LinkAt(p.heap, p.n, s.at, i))
    && (p.rpc.RIdle? || p.rpc.RCheck? || p.rpc.RTake? ==> p.beginChunk == s.at[s.lo].chunk)
    && (p.wpc.WIdle? || p.wpc.UStart? || p.wpc.FCas? || p.wpc.FSet? ==> Addr(p.endChunk, p.endPos) == s.at[|s.at| - 1])
  }

  ghost predicate PointersAre<T>(p: Pipe<T>, s: Shape<T>)
  {
    && s.lo <= s.front <= s.w <= s.f <= |s.log| < |s.at|
    && p.w == s.at[s.w] && p.f == s.at[s.f]
    && (s.r.Some? ==> s.front <= s.r.value <= s.w)
    && p.r == (if s.r.Some? then Some(s.at[s.r.value]) else None)
    && (if p.c.Some? then p.c.value == s.at[s.w] else s.w == s.front)
    && (p.rpc.RIdle? || p.rpc.RCheck? || p.rpc.RTake? ==> p.Front() == s.at[s.front])
    && (p.wpc.WIdle? || p.wpc.UStart? || p.wpc.FCas? || p.wpc.FSet? ==> p.Back() == s.at[|s.log|])
  }

  lemma OwnedNow<T>(p: Pipe<T>, s: Shape<T>)
    requires Rep(p, s)
    ensures ListIs(p, s) && PointersAre(p, s)
    ensures p.heap.Keys == Live(s.at, s.lo) + ToSet(p.spare) + WriterHand(p.wpc) + ReaderHand(p.rpc)
    ensures Live(s.at, s.lo) !! ToSet(p.spare) !! WriterHand(p.wpc) !! ReaderHand(p.rpc)
    ensures forall i, j :: s.lo <= i < |s.at| && s.lo <= j < |s.at| ==> (s.at[i] == s.at[j] <==> i == j)
  {
    hide Stored, SlotHolds, Live, LinkAt, BackLinkAt;
    forall i, j | s.lo <= i < |s.at| && s.lo <= j < |s.at| ensures s.at[i] == s.at[j] <==> i == j { NoAba(p, s, i, j); }
  }

  /** At every point of every schedule: a check makes r_ NULL exactly if c_ is NULL when it starts,
      and r_ stays as it is in every other step. */
  lemma NullExactly<T(!new)>(n: nat, first: Block<T>, second: Block<T>, schedule: seq<Action<T>>, a: Action<T>)
    requires n >= 1 && Allocated(n, first, second)
    ensures Run(Init(n, first, second), schedule).Some?
    ensures var p := Run(Init(n, first, second), schedule).value.0;
            Enabled(p, a) ==>
              && Move(p, a).Next?
              && (if a.MoveReader? && p.rpc.RCheck? then Move(p, a).pipe.r.None? <==> p.c.None? else Move(p, a).pipe.r == p.r)
  {
    hide Rep, Abs, Enabled, Move;
    var start := InitRep(n, first, second);
    var s := RunFrom(Init(n, first, second), start, schedule);
    var p := Run(Init(n, first, second), schedule).value.0;
    if Enabled(p, a) {
      var t := Simulation(p, s, a);
      NullNow(p, s, a);
    }
  }

  lemma NullNow<T>(p: Pipe<T>, s: Shape<T>, a: Action<T>)
    requires Rep(p, s) && Enabled(p, a) && Move(p, a).Next?
    ensures if a.MoveReader? && p.rpc.RCheck? then Move(p, a).pipe.r.None? <==> p.c.None? else Move(p, a).pipe.r == p.r
  {
    hide Rep;
    if a.MoveReader? && p.rpc.RCheck? { CheckNull(p, s); }
  }

  /** It does happen: a reader that looks again while it is asleep. */
  lemma SleepingReaderLooksAgain<T>(n: nat, first: Block<T>, second: Block<T>)
    requires n >= 1 && Allocated(n, first, second)
    ensures var looks := [BeginCheckRead, MoveReader];
            && Run(Init(n, first, second), looks).Some? && Run(Init(n, first, second), looks).value.0.r.Some?
            && Run(Init(n, first, second), looks + looks).Some? && Run(Init(n, first, second), looks + looks).value.0.r.None?
  {
    var p0 := Init(n, first, second);
    var looks: seq<Action<T>> := [BeginCheckRead, MoveReader];
    var p1 := Move(p0, BeginCheckRead).pipe;
    var p2 := Move(p1, MoveReader).pipe;
    var p3 := Move(p2, BeginCheckRead).pipe;
    var p4 := Move(p3, MoveReader).pipe;
    assert p2.c.None? && p2.r.Some? && p4.r.None?;
    var none: seq<Action<T>> := [];
    assert Run(p2, none).value.0 == p2 && Run(p4, none).value.0 == p4;
    assert looks[1..] == [MoveReader] && looks[1..][1..] == none;
    assert Run(p1, looks[1..]).value.0 == p2 && Run(p0, looks).value.0 == p2;
    var twice := looks + looks;
    assert twice[1..] == [MoveReader, BeginCheckRead, MoveReader] && twice[1..][1..] == looks;
    assert Run(p3, looks[1..]).value.0 == p4 && Run(p2, looks).value.0 == p4;
    assert Run(p1, twice[1..]).value.0 == p4 && Run(p0, twice).value.0 == p4;
  }

  // ---- every call gets its answer ----

  /** An operation of the pipe as its caller sees it begin. */
  datatype Call<T> = WriteCall(item: T, incomplete: bool) | UnWriteCall | FlushCall | CheckCall | ReadCall

  /** `e` is an answer to `c`. */
  predicate Answers<T(==)>(c: Call<T>, e: Event<T>)
  {
    match c
    case WriteCall(v, incomplete) => e == Wrote(v, incomplete)
    case UnWriteCall => e.UnWrote?
    case FlushCall => e.Flushed?
    case CheckCall => e.Checked?
    case ReadCall => e.ReadGot? || e.ReadNothing?
  }

  predicate OfWriter<T>(c: Call<T>)
  {
    c.WriteCall? || c.UnWriteCall? || c.FlushCall?
  }

  predicate ByWriter<T>(e: Event<T>)
  {
    e.Wrote? || e.UnWrote? || e.Flushed?
  }

  /** The call that an idle thread makes by `a`. */
  function CallOf<T>(p: Pipe<T>, a: Action<T>): Option<Call<T>>
  {
    match a
    case BeginWrite(v, incomplete) => if p.wpc.WIdle? then Some(WriteCall(v, incomplete)) else None
    case BeginUnWrite => if p.wpc.WIdle? then Some(UnWriteCall) else None
    case BeginFlush => if p.wpc.WIdle? then Some(FlushCall) else None
    case MoveWriter(_) => None
    case BeginCheckRead => if p.rpc.RIdle? then Some(CheckCall) else None
    case BeginRead => if p.rpc.RIdle? then Some(ReadCall) else None
    case MoveReader => None
  }

  /** The calls that `a` makes, and the answers of one thread in what it returns. */
  function Made<T>(p: Pipe<T>, a: Action<T>, writer: bool): seq<Call<T>>
  {
    var c := CallOf(p, a);
    if c.Some? && OfWriter(c.value) == writer then [c.value] else []
  }

  function Answered<T>(e: Option<Event<T>>, writer: bool): seq<Event<T>>
  {
    if e.Some? && ByWriter(e.value) == writer then [e.value] else []
  }

  /** All calls that the schedule makes, those of the writer or those of the reader. */
  function CallsOf<T>(p: Pipe<T>, schedule: seq<Action<T>>, writer: bool): seq<Call<T>>
    decreases |schedule|
  {
    if schedule == [] then []
    else
      Made(p, schedule[0], writer) +
      if !Enabled(p, schedule[0]) then CallsOf(p, schedule[1..], writer)
      else match Move(p, schedule[0])
        case Fault => []
        case Next(q, _) => CallsOf(q, schedule[1..], writer)
  }

  function EventsOf<T>(events: seq<Event<T>>, writer: bool): seq<Event<T>>
  {
    if events == [] then []
    else (if ByWriter(events[0]) == writer then [events[0]] else []) + EventsOf(events[1..], writer)
  }

  /** The call a thread is inside of. */
  function OpenCall<T>(p: Pipe<T>, writer: bool): Option<Call<T>>
  {
    if writer then WriterOpen(p.wpc) else ReaderOpen(p.rpc)
  }

  function WriterOpen<T>(pc: WriterPc<T>): Option<Call<T>>
  {
    match pc
    case WIdle => None
    case WStore(v, incomplete) => Some(WriteCall(v, incomplete))
    case WXchg(v, incomplete) => Some(WriteCall(v, incomplete))
    case WAlloc(v, incomplete) => Some(WriteCall(v, incomplete))
    case WLink(v, incomplete, _) => Some(WriteCall(v, incomplete))
    case WBackLink(v, incomplete, _) => Some(WriteCall(v, incomplete))
    case UStart => Some(UnWriteCall)
    case UEnd => Some(UnWriteCall)
    case UFree => Some(UnWriteCall)
    case UNull => Some(UnWriteCall)
    case UTake => Some(UnWriteCall)
    case FCas => Some(FlushCall)
    case FSet => Some(FlushCall)
  }

  function ReaderOpen<T>(pc: ReaderPc<T>): Option<Call<T>>
  {
    match pc
    case RIdle => None
    case RCheck(thenTake) => Some(if thenTake then ReadCall else CheckCall)
    case RTake => Some(ReadCall)
    case RNext(_) => Some(ReadCall)
    case RClear(_, _) => Some(ReadCall)
    case RXchg(_, _) => Some(ReadCall)
    case RFree(_, _) => Some(ReadCall)
  }

  function Listed<T>(c: Option<Call<T>>): seq<Call<T>> { if c.Some? then [c.value] else [] }

  /** `events` answer `calls` one for one, but for the last call if it is `open`. */
  ghost predicate AnswersAll<T>(calls: seq<Call<T>>, events: seq<Event<T>>, open: Option<Call<T>>)
  {
    && |calls| == |events| + |Listed(open)|
    && (open.Some? ==> calls[|events|] == open.value)
    && forall k :: 0 <= k < |events| ==> Answers(calls[k], events[k])
  }

  /** One step: a call is opened by an idle thread, goes on, or is answered. */
  ghost predicate StepMatches<T>(p: Pipe<T>, a: Action<T>, writer: bool)
    requires Enabled(p, a) && Move(p, a).Next?
  {
    var res := Move(p, a);
    var before := Listed(OpenCall(p, writer)) + Made(p, a, writer);
    var now := Answered(res.event, writer);
    if now == [] then before == Listed(OpenCall(res.pipe, writer))
    else |now| == 1 && |before| == 1 && OpenCall(res.pipe, writer).None? && Answers(before[0], now[0])
  }

  lemma WriterAnswers<T>(p: Pipe<T>, b: Block<T>, writer: bool)
    requires WriterEnabled(p, b) && WriterStep(p, b).Next?
    ensures StepMatches(p, MoveWriter(b), writer)
    ensures WriterStep(p, b).event.None? <==> !WriterStep(p, b).pipe.wpc.WIdle?
    ensures WriterStep(p, b).event.None? ==> WriterRank(WriterStep(p, b).pipe.wpc) < WriterRank(p.wpc)
    ensures WriterStep(p, b).event.Some? ==> ByWriter(WriterStep(p, b).event.value)
  {
  }

  lemma ReaderAnswers<T>(p: Pipe<T>, writer: bool)
    requires !p.rpc.RIdle? && ReaderStep(p).Next?
    ensures StepMatches(p, MoveReader, writer)
    ensures ReaderStep(p).event.None? <==> !ReaderStep(p).pipe.rpc.RIdle?
    ensures ReaderStep(p).event.None? ==> ReaderRank(ReaderStep(p).pipe.rpc) < ReaderRank(p.rpc)
    ensures ReaderStep(p).event.Some? ==> !ByWriter(ReaderStep(p).event.value)
  {
  }

  lemma StepAnswers<T>(p: Pipe<T>, a: Action<T>, writer: bool)
    requires Enabled(p, a) && Move(p, a).Next?
    ensures StepMatches(p, a, writer)
  {
    hide WriterStep, ReaderStep, WriterEnabled;
    match a
    case MoveWriter(b) => WriterAnswers(p, b, writer);
    case MoveReader => ReaderAnswers(p, writer);
    case _ =>
  }

  /** The answers of one step followed by those of the rest. */
  lemma AnswersJoin<T>(before: seq<Call<T>>, made: seq<Call<T>>, now: seq<Event<T>>, between: Option<Call<T>>,
                       calls: seq<Call<T>>, events: seq<Event<T>>, open: Option<Call<T>>)
    requires if now == [] then before + made == Listed(between)
             else |now| == 1 && |before + made| == 1 && between.None? && Answers((before + made)[0], now[0])
    requires AnswersAll(Listed(between) + calls, events, open)
    ensures AnswersAll(before + (made + calls), now + events, open)
  {
    hide Answers;
    assert before + (made + calls) == (before + made) + calls;
    if now == [] {
      assert now + events == events;
    } else {
      assert Listed(between) + calls == calls;
      assert before + made == [(before + made)[0]] && now == [now[0]];
      FirstAnswered((before + made)[0], now[0], calls, events, open);
    }
  }

  lemma FirstAnswered<T>(c: Call<T>, e: Event<T>, calls: seq<Call<T>>, events: seq<Event<T>>, open: Option<Call<T>>)
    requires Answers(c, e) && AnswersAll(calls, events, open)
    ensures AnswersAll([c] + calls, [e] + events, open)
  {
    hide Answers;
    forall k | 0 <= k < |[e] + events| ensures Answers(([c] + calls)[k], ([e] + events)[k]) {
      if k > 0 { assert Answers(calls[k - 1], events[k - 1]); }
    }
  }

  lemma CallsStep<T>(p: Pipe<T>, schedule: seq<Action<T>>, writer: bool)
    requires schedule != [] && Enabled(p, schedule[0]) && Move(p, schedule[0]).Next?
    requires Run(p, schedule).Some?
    ensures var res := Move(p, schedule[0]);
            && CallsOf(p, schedule, writer) == Made(p, schedule[0], writer) + CallsOf(res.pipe, schedule[1..], writer)
            && Run(res.pipe, schedule[1..]).Some?
            && Run(p, schedule).value.0 == Run(res.pipe, schedule[1..]).value.0
            && EventsOf(Run(p, schedule).value.1, writer)
            == Answered(res.event, writer) + EventsOf(Run(res.pipe, schedule[1..]).value.1, writer)
  {
    hide Move, Enabled, CallOf, ByWriter, OfWriter;
    var res := Move(p, schedule[0]);
    var later := Run(res.pipe, schedule[1..]).value.1;
    var events := Run(p, schedule).value.1;
    if res.event.Some? {
      assert events[0] == res.event.value && events[1..] == later;
    } else {
      assert events == later;
    }
  }

  lemma {:induction false} AnswersFrom<T(!new)>(p: Pipe<T>, s: Shape<T>, schedule: seq<Action<T>>, writer: bool)
    requires Rep(p, s) && Run(p, schedule).Some?
    ensures var (z, events) := Run(p, schedule).value;
            AnswersAll(Listed(OpenCall(p, writer)) + CallsOf(p, schedule, writer), EventsOf(events, writer), OpenCall(z, writer))
    decreases |schedule|
  {
    hide Rep, Abs, Move, Enabled, OpenCall, CallOf, Answers;
    if schedule == [] {
    } else if !Enabled(p, schedule[0]) {
      NoCall(p, schedule[0]);
      AnswersFrom(p, s, schedule[1..], writer);
    } else {
      AnswersStep(p, s, schedule, writer);
    }
  }

  lemma AnswersStep<T(!new)>(p: Pipe<T>, s: Shape<T>, schedule: seq<Action<T>>, writer: bool)
    requires Rep(p, s) && Run(p, schedule).Some?
    requires schedule != [] && Enabled(p, schedule[0])
    ensures var (z, events) := Run(p, schedule).value;
            AnswersAll(Listed(OpenCall(p, writer)) + CallsOf(p, schedule, writer), EventsOf(events, writer), OpenCall(z, writer))
    decreases |schedule|, 0
  {
    hide Rep, Abs, Move, Enabled, OpenCall, CallOf, Answers, AnswersAll, CallsOf, EventsOf, Run, Listed;
    var a := schedule[0];
    var t := Simulation(p, s, a);
    var res := Move(p, a);
    StepAnswers(p, a, writer);
    CallsStep(p, schedule, writer);
    AnswersFrom(res.pipe, t, schedule[1..], writer);
    AnswersJoin(Listed(OpenCall(p, writer)), Made(p, a, writer), Answered(res.event, writer), OpenCall(res.pipe, writer),
                CallsOf(res.pipe, schedule[1..], writer), EventsOf(Run(res.pipe, schedule[1..]).value.1, writer),
                OpenCall(Run(p, schedule).value.0, writer));
  }

  lemma NoCall<T>(p: Pipe<T>, a: Action<T>)
    requires !Enabled(p, a)
    ensures CallOf(p, a).None?
  {
  }

  /** For every schedule and for each thread: the answers it got, and then at most one operation that
      is still going on, are those of the calls it made, one for one and in order. */
  lemma EveryCallAnswered<T(!new)>(n: nat, first: Block<T>, second: Block<T>, schedule: seq<Action<T>>, writer: bool)
    requires n >= 1 && Allocated(n, first, second)
    ensures Run(Init(n, first, second), schedule).Some?
    ensures var (p, events) := Run(Init(n, first, second), schedule).value;
            AnswersAll(CallsOf(Init(n, first, second), schedule, writer), EventsOf(events, writer), OpenCall(p, writer))
  {
    hide Rep, Abs;
    var s := InitRep(n, first, second);
    var t := RunFrom(Init(n, first, second), s, schedule);
    AnswersFrom(Init(n, first, second), s, schedule, writer);
    assert Listed<T>(None) + CallsOf(Init(n, first, second), schedule, writer) == CallsOf(Init(n, first, second), schedule, writer);
  }

  // ---- every call returns ----

  ghost predicate CanFinish<T>(p: Pipe<T>, b: Block<T>)
  {
    p.wpc.WStore? || p.wpc.WXchg? || p.wpc.WAlloc? ==> Mallocable(p, b)
  }

  /** A thread that makes `k` steps alone; `b` is what malloc returns if it is called. */
  function Alone<T>(a: Action<T>, k: nat): seq<Action<T>>
  {
    seq(k, _ => a)
  }

  /** `a`, `k` times from `p`, answers the open call, and nothing else returns. */
  ghost predicate Returns<T(!new)>(p: Pipe<T>, a: Action<T>, k: nat, writer: bool)
  {
    var run := Run(p, Alone(a, k));
    && run.Some? && |run.value.1| == 1 && ByWriter(run.value.1[0]) == writer
    && OpenCall(run.value.0, writer).None? && OpenCall(run.value.0, !writer) == OpenCall(p, !writer)
    && OpenCall(p, writer).Some? && Answers(OpenCall(p, writer).value, run.value.1[0])
  }

  lemma OneMore<T(!new)>(p: Pipe<T>, a: Action<T>, k: nat, writer: bool)
    requires Enabled(p, a) && Move(p, a).Next? && StepMatches(p, a, writer) && StepMatches(p, a, !writer)
    requires a.MoveWriter? || a.MoveReader?
    requires if Move(p, a).event.None? then Returns(Move(p, a).pipe, a, k, writer)
             else k == 0 && ByWriter(Move(p, a).event.value) == writer
    ensures Returns(p, a, k + 1, writer)
  {
    hide Move, Enabled, OpenCall, Answers, ByWriter;
    var q := Move(p, a).pipe;
    assert Alone(a, k + 1)[0] == a && Alone(a, k + 1)[1..] == Alone(a, k);
    assert Made(p, a, writer) == [] && Made(p, a, !writer) == [];
    assert Listed(OpenCall(p, writer)) + [] == Listed(OpenCall(p, writer));
    assert Listed(OpenCall(p, !writer)) + [] == Listed(OpenCall(p, !writer));
    var run := Run(p, Alone(a, k + 1));
    if Move(p, a).event.None? {
      assert run.value.1 == Run(q, Alone(a, k)).value.1;
    } else {
      assert Alone(a, 0) == [] && Run(q, Alone(a, 0)) == Some((q, []));
      assert run.value.1 == [Move(p, a).event.value];
    }
  }

  lemma {:induction false} WriterReturns<T(!new)>(p: Pipe<T>, s: Shape<T>, b: Block<T>) returns (k: nat)
    requires Rep(p, s) && !p.wpc.WIdle? && CanFinish(p, b)
    ensures 1 <= k <= WriterRank(p.wpc) && Returns(p, MoveWriter(b), k, true)
    decreases WriterRank(p.wpc)
  {
    hide Rep, Abs, Step, Returns, StepMatches;
    var t := Simulation(p, s, MoveWriter(b));
    var q := WriterStep(p, b).pipe;
    WriterAnswers(p, b, true);
    WriterAnswers(p, b, false);
    if WriterStep(p, b).event.None? {
      k := WriterReturns(q, t, b);
    } else {
      k := 0;
    }
    OneMore(p, MoveWriter(b), k, true);
    k := k + 1;
  }

  lemma {:induction false} ReaderReturns<T(!new)>(p: Pipe<T>, s: Shape<T>) returns (k: nat)
    requires Rep(p, s) && !p.rpc.RIdle?
    ensures 1 <= k <= ReaderRank(p.rpc) && Returns(p, MoveReader, k, false)
    decreases ReaderRank(p.rpc)
  {
    hide Rep, Abs, Step, Returns, StepMatches;
    var t := Simulation(p, s, MoveReader);
    var q := ReaderStep(p).pipe;
    ReaderAnswers(p, true);
    ReaderAnswers(p, false);
    if ReaderStep(p).event.None? {
      k := ReaderReturns(q, t);
    } else {
      k := 0;
    }
    OneMore(p, MoveReader, k, false);
    k := k + 1;
  }

  /** At every point of every schedule, whatever the other thread is in the middle of: a writer
      that is inside an operation gets its answer after at most five steps of its own, a reader
      after at most six. */
  lemma EveryCallReturns<T(!new)>(n: nat, first: Block<T>, second: Block<T>, schedule: seq<Action<T>>, b: Block<T>)
    returns (writings: nat, readings: nat)
    requires n >= 1 && Allocated(n, first, second)
    requires var run := Run(Init(n, first, second), schedule); run.Some? ==> Mallocable(run.value.0, b)
    ensures Run(Init(n, first, second), schedule).Some?
    ensures var p := Run(Init(n, first, second), schedule).value.0;
            && (!p.wpc.WIdle? ==> 1 <= writings <= 5 && Returns(p, MoveWriter(b), writings, true))
            && (!p.rpc.RIdle? ==> 1 <= readings <= 6 && Returns(p, MoveReader, readings, false))
  {
    hide Rep, Abs, Returns, Mallocable;
    var start := InitRep(n, first, second);
    var s := RunFrom(Init(n, first, second), start, schedule);
    var p := Run(Init(n, first, second), schedule).value.0;
    writings, readings := 0, 0;
    if !p.wpc.WIdle? { writings := WriterReturns(p, s, b); }
    if !p.rpc.RIdle? { readings := ReaderReturns(p, s); }
  }

  // ---- what the atomic queue promises ----

  function Reads<T>(events: seq<Event<T>>): seq<T>
  {
    if events == [] then []
    else (if events[0].ReadGot? then [events[0].item] else []) + Reads(events[1..])
  }

  /** What the writer alone has achieved: the complete items it flushed, those it did not, and
      the items of an unfinished message. */
  datatype Tally<T> = Tally(released: seq<T>, complete: seq<T>, partial: seq<T>)

  function CountOne<T>(t: Tally<T>, e: Event<T>): Tally<T>
  {
    match e
    case Wrote(v, incomplete) =>
      if incomplete then t.(partial := t.partial + [v]) else Tally(t.released, t.complete + t.partial + [v], [])
    case UnWrote(removed) =>
      if removed.Some? && t.partial != [] then t.(partial := t.partial[..|t.partial| - 1]) else t
    case Flushed(_) => Tally(t.released + t.complete, [], t.partial)
    case _ => t
  }

  function Count<T>(t: Tally<T>, events: seq<Event<T>>): Tally<T>
    decreases |events|
  {
    if events == [] then t else Count(CountOne(t, events[0]), events[1..])
  }

  lemma ConservationOne<T>(done: seq<T>, a: Fifo<T>, e: Event<T>, b: Fifo<T>)
    requires Step(a, e, b)
    ensures CountOne(Tally(done + a.queue, a.complete, a.partial), e)
         == Tally(done + (if e.ReadGot? then [e.item] else []) + b.queue, b.complete, b.partial)
  {
    if e.Flushed? {
      assert done + a.queue + a.complete == done + [] + b.queue;
    } else if e.ReadGot? {
      assert done + a.queue == done + [e.item] + b.queue;
    } else {
      assert done + [] == done;
    }
  }

  lemma Conservation<T(!new)>(done: seq<T>, a: Fifo<T>, events: seq<Event<T>>, b: Fifo<T>)
    requires Accepts(a, events, b)
    ensures Count(Tally(done + a.queue, a.complete, a.partial), events)
         == Tally(done + Reads(events) + b.queue, b.complete, b.partial)
    decreases |events|
  {
    hide CountOne, Step;
    if events == [] {
      assert done + Reads(events) == done;
    } else {
      var m :| Step(a, events[0], m) && Accepts(m, events[1..], b);
      var got := if events[0].ReadGot? then [events[0].item] else [];
      ConservationOne(done, a, events[0], m);
      Conservation(done + got, m, events[1..], b);
      assert (done + got) + Reads(events[1..]) == done + Reads(events);
    }
  }

  /** For every schedule: the items read, followed by those still queued, are the complete items
      the writer flushed, in order; items of an unfinished or unflushed message are not among them. */
  lemma FirstInFirstOut<T(!new)>(n: nat, first: Block<T>, second: Block<T>, schedule: seq<Action<T>>) returns (b: Fifo<T>)
    requires n >= 1 && Allocated(n, first, second)
    ensures Run(Init(n, first, second), schedule).Some?
    ensures var events := Run(Init(n, first, second), schedule).value.1;
            Accepts(Fifo([], [], [], false), events, b)
            && Count(Tally([], [], []), events) == Tally(Reads(events) + b.queue, b.complete, b.partial)
  {
    Refinement(n, first, second, schedule);
    var events := Run(Init(n, first, second), schedule).value.1;
    b :| Accepts(Fifo([], [], [], false), events, b);
    var empty: seq<T> := [];
    Conservation(empty, Fifo([], [], [], false), events, b);
    assert empty + Reads(events) == Reads(events) && empty + empty == empty;
  }

  // ---- destruction ----

  /** The loop of ~YQueue over the list; `None` if it follows or frees a pointer it must not. */
  function FreeList<T>(heap: map<ChunkId, Chunk<T>>, begin: ChunkId, end: ChunkId): Option<map<ChunkId, Chunk<T>>>
    decreases |heap|
  {
    if begin !in heap then None
    else if begin == end then Some(heap - {begin})
    else if heap[begin].next.None? then None
    else
      assert |heap - {begin}| < |heap| by { FewerChunks(heap, begin); }
      FreeList(heap - {begin}, heap[begin].next.value, end)
  }

  lemma FewerChunks<T>(heap: map<ChunkId, Chunk<T>>, id: ChunkId)
    requires id in heap
    ensures |heap - {id}| < |heap|
  {
    assert (heap - {id}).Keys == heap.Keys - {id};
    assert |heap.Keys - {id}| == |heap.Keys| - 1;
    assert |heap| == |heap.Keys| && |heap - {id}| == |(heap - {id}).Keys|;
  }

  /** ~YQueue: the list, then the spare chunk. */
  function Destroy<T>(p: Pipe<T>): Option<map<ChunkId, Chunk<T>>>
  {
    match FreeList(p.heap, p.beginChunk, p.endChunk)
    case None => None
    case Some(heap) =>
      if p.spare.Some? && p.spare.value !in heap then None else Some(Free(heap, p.spare))
  }

  /** From slot `j` on, the list is intact even after the chunks before it were freed. */
  lemma FreeListFrom<T>(p: Pipe<T>, s: Shape<T>, heap: map<ChunkId, Chunk<T>>, j: nat)
    requires Rep(p, s) && s.lo <= j < |s.at|
    requires forall id :: id in Live(s.at, j) ==> id in heap && id in p.heap && heap[id] == p.heap[id]
    ensures var res := FreeList(heap, s.at[j].chunk, s.at[|s.at| - 1].chunk);
            res.Some? && res.value == heap - Live(s.at, j)
    decreases |s.at| - j
  {
    hide Stored, Owned, WriterKnows, ReaderKnows, WordKnows, SameChunk, BackLinkAt, SlotHolds;
    var begin := s.at[j].chunk;
    var end := s.at[|s.at| - 1].chunk;
    assert begin in Live(s.at, j);
    if j == |s.at| - 1 {
      assert Live(s.at, j) == {begin};
    } else {
      assert LinkAt(p.heap, p.n, s.at, j);
      assert Live(s.at, j) == {begin} + Live(s.at, j + 1);
      if s.at[j].pos + 1 < p.n {
        assert s.at[j + 1].chunk in Live(s.at, j + 1);
        FreeListFrom(p, s, heap, j + 1);
      } else {
        forall i | j < i < |s.at| ensures s.at[i].chunk != begin { assert Apart(s.at, j, i); }
        FreeListFrom(p, s, heap - {begin}, j + 1);
        assert (heap - {begin}) - Live(s.at, j + 1) == heap - Live(s.at, j);
      }
    }
  }

  /** After any schedule that leaves both threads outside the pipe, the destructor frees every
      allocated chunk exactly once. */
  lemma AllFreed<T(!new)>(n: nat, first: Block<T>, second: Block<T>, schedule: seq<Action<T>>)
    requires n >= 1 && Allocated(n, first, second)
    requires var run := Run(Init(n, first, second), schedule);
             run.Some? ==> run.value.0.wpc.WIdle? && run.value.0.rpc.RIdle?
    ensures Run(Init(n, first, second), schedule).Some?
    ensures Destroy(Run(Init(n, first, second), schedule).value.0) == Some(map[])
  {
    var s := InitRep(n, first, second);
    var t := RunFrom(Init(n, first, second), s, schedule);
    DestroyIdle(Run(Init(n, first, second), schedule).value.0, t);
  }

  lemma DestroyIdle<T>(p: Pipe<T>, s: Shape<T>)
    requires Rep(p, s) && p.wpc.WIdle? && p.rpc.RIdle?
    ensures Destroy(p) == Some(map[])
  {
    hide Linked, Stored, Spread;
    FirstSlot(p, s);
    FreeListFrom(p, s, p.heap, s.lo);
    var heap := p.heap - Live(s.at, s.lo);
    assert heap.Keys == ToSet(p.spare);
    assert Free(heap, p.spare).Keys == {};
  }

  lemma FirstSlot<T>(p: Pipe<T>, s: Shape<T>)
    requires Rep(p, s) && p.wpc.WIdle? && p.rpc.RIdle?
    ensures p.beginChunk == s.at[s.lo].chunk && p.endChunk == s.at[|s.at| - 1].chunk
  {
  }
}
