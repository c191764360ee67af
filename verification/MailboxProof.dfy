/** No lost message, no lost wake-up, for any number of senders and any schedule. */
module MailboxProof {
  import opened Wrappers
  import opened AtomicQueue
  import opened YPipe
  import opened Mailboxes
  import P = YPipeProof

  // ---- the wake-up token ----

  /** Flush told this sender that the receiver sleeps, and it has not signalled yet. */
  predicate Owes<T>(pc: SenderPc<T>)
  {
    pc.Signalling? || (pc.Unlocking? && !pc.awake)
  }

  function Owing<T>(senders: map<nat, SenderPc<T>>): set<nat>
  {
    set i | i in senders && Owes(senders[i])
  }

  function Unit(b: bool): nat
  {
    if b then 1 else 0
  }

  /** How many of these hold: c_ is NULL; a sender owes a signal (each counted); the eventfd is
      readable; the receiver is active. */
  function Tokens<T>(asleep: bool, c: Control<T>): nat
  {
    Unit(asleep) + |Owing(c.senders)| + Unit(c.eventfd > 0) + Unit(c.active)
  }

  lemma SetOwing<T>(senders: map<nat, SenderPc<T>>, i: nat, pc: SenderPc<T>)
    requires i in senders
    ensures Owing(senders[i := pc]) == if Owes(pc) then Owing(senders) + {i} else Owing(senders) - {i}
    ensures |Owing(senders[i := pc])| == |Owing(senders)| - Unit(Owes(senders[i])) + Unit(Owes(pc))
  {
    var after := Owing(senders[i := pc]);
    if Owes(senders[i]) && !Owes(pc) {
      assert Owing(senders) == after + {i};
    } else if Owes(pc) && !Owes(senders[i]) {
      assert after == Owing(senders) + {i};
    } else {
      assert after == Owing(senders);
    }
  }

  // ---- the protocol, over the atomic queue ----

  predicate InsideLock<T>(pc: SenderPc<T>)
  {
    pc.Writing? || pc.Flushing? || pc.Unlocking?
  }

  ghost predicate Protocol<T>(a: Fifo<T>, c: Control<T>)
  {
    && (forall i :: i in c.senders ==> (InsideLock(c.senders[i]) <==> c.holder == Some(i)))
    && (c.holder.Some? ==> c.holder.value in c.senders)
    && a.partial == []
    && (a.complete != [] ==> c.holder.Some? && c.senders[c.holder.value].Flushing?)
    && c.sent == c.got + a.queue + a.complete
    && Tokens(a.asleep, c) == 1
    && (a.asleep ==> a.queue == [])
    && (Owing(c.senders) != {} || c.eventfd > 0 || c.recv.ReadingWoken? ==> a.queue != [])
    && (c.recv.Reading? || c.recv.ReadingWoken? ==> c.active)
    && (c.recv.Polling? || c.recv.Consuming? || c.recv.Outside? ==> !c.active)
    && (forall i :: i in c.senders && c.senders[i].Flushing? ==> |a.complete| == 1)
  }

  /** The pipe is inside the operation its caller is in. */
  ghost predicate InStep<T>(p: Pipe<T>, c: Control<T>)
  {
    && (match HolderPc(c)
        case Writing(msg) => InWrite(p.wpc, msg)
        case Flushing => p.wpc.FCas? || p.wpc.FSet?
        case _ => p.wpc.WIdle?)
    && (if c.recv.Reading? || c.recv.ReadingWoken? then InRead(p.rpc) else p.rpc.RIdle?)
  }

  function HolderPc<T>(c: Control<T>): SenderPc<T>
  {
    if c.holder.Some? && c.holder.value in c.senders then c.senders[c.holder.value] else Resting
  }

  predicate InRead<T>(pc: ReaderPc<T>)
  {
    !pc.RIdle? && pc != RCheck(false)
  }

  ghost predicate InWrite<T>(pc: WriterPc<T>, msg: T)
  {
    match pc
    case WStore(v, incomplete) => v == msg && !incomplete
    case WXchg(v, incomplete) => v == msg && !incomplete
    case WAlloc(v, incomplete) => v == msg && !incomplete
    case WLink(v, incomplete, _) => v == msg && !incomplete
    case WBackLink(v, incomplete, _) => v == msg && !incomplete
    case _ => false
  }

  ghost predicate Inv<T>(m: Mailbox<T>, s: P.Shape<T>)
  {
    P.Rep(m.pipe, s) && Protocol(P.Abs(m.pipe, s), m.ctl) && InStep(m.pipe, m.ctl)
  }

  // ---- which operation a step belongs to ----

  lemma WriteGoesOn<T>(p: Pipe<T>, b: Block<T>, msg: T)
    requires InWrite(p.wpc, msg) && WriterEnabled(p, b) && WriterStep(p, b).Next?
    ensures var res := WriterStep(p, b);
            if res.event.None? then InWrite(res.pipe.wpc, msg)
            else res.event == Some(Wrote(msg, false)) && res.pipe.wpc.WIdle?
    ensures WriterStep(p, b).pipe.rpc == p.rpc
  {
  }

  lemma FlushGoesOn<T>(p: Pipe<T>, b: Block<T>)
    requires (p.wpc.FCas? || p.wpc.FSet?) && WriterEnabled(p, b)
    ensures var res := WriterStep(p, b);
            res.Next? && res.pipe.rpc == p.rpc
            && if res.event.None? then res.pipe.wpc.FSet? else res.event.value.Flushed? && res.pipe.wpc.WIdle?
  {
  }

  lemma ReadGoesOn<T>(p: Pipe<T>)
    requires InRead(p.rpc) && ReaderStep(p).Next?
    ensures var res := ReaderStep(p);
            res.pipe.wpc == p.wpc
            && if res.event.None? then InRead(res.pipe.rpc)
               else (res.event.value.ReadGot? || res.event.value.ReadNothing?) && res.pipe.rpc.RIdle?
  {
  }

  // ---- every step keeps the protocol ----

  lemma WroteKeeps<T>(a: Fifo<T>, b: Fifo<T>, c: Control<T>, i: nat, msg: T)
    requires Protocol(a, c) && i in c.senders && c.senders[i] == Writing(msg)
    requires AtomicQueue.Step(a, Wrote(msg, false), b)
    ensures Protocol(b, c.Set(i, Flushing).(sent := c.sent + [msg]))
  {
    SetOwing(c.senders, i, Flushing);
  }

  lemma FlushedKeeps<T>(a: Fifo<T>, b: Fifo<T>, c: Control<T>, i: nat, awake: bool)
    requires Protocol(a, c) && i in c.senders && c.senders[i].Flushing?
    requires AtomicQueue.Step(a, Flushed(awake), b)
    ensures Protocol(b, c.Set(i, Unlocking(awake)))
  {
    SetOwing(c.senders, i, Unlocking(awake));
    assert c.got + a.queue + a.complete == c.got + b.queue + b.complete;
  }

  lemma GotKeeps<T>(a: Fifo<T>, b: Fifo<T>, c: Control<T>, v: T)
    requires Protocol(a, c) && (c.recv.Reading? || c.recv.ReadingWoken?)
    requires AtomicQueue.Step(a, ReadGot(v), b)
    ensures Protocol(b, c.(recv := Fetching, got := c.got + [v]))
  {
    assert c.got + a.queue + a.complete == (c.got + [v]) + b.queue + b.complete;
    assert |Owing(c.senders)| == 0;
  }

  lemma NothingKeeps<T>(a: Fifo<T>, b: Fifo<T>, c: Control<T>)
    requires Protocol(a, c) && c.recv.Reading?
    requires AtomicQueue.Step(a, ReadNothing, b)
    ensures Protocol(b, c.(active := false, recv := Polling))
  {
  }

  lemma CallKeeps<T>(a: Fifo<T>, c: Control<T>, i: nat, msg: T)
    requires Protocol(a, c) && i in c.senders && c.senders[i].Resting?
    ensures Protocol(a, c.Set(i, Locking(msg)))
  {
    SetOwing(c.senders, i, Locking(msg));
  }

  lemma LockKeeps<T>(a: Fifo<T>, c: Control<T>, i: nat, msg: T)
    requires Protocol(a, c) && i in c.senders && c.senders[i].Locking? && c.holder.None?
    ensures Protocol(a, c.Set(i, Writing(msg)).(holder := Some(i)))
  {
    SetOwing(c.senders, i, Writing(msg));
  }

  lemma UnlockKeeps<T>(a: Fifo<T>, c: Control<T>, i: nat)
    requires Protocol(a, c) && i in c.senders && c.senders[i].Unlocking?
    ensures Protocol(a, c.Set(i, if c.senders[i].awake then Resting else Signalling).(holder := None))
  {
    SetOwing(c.senders, i, if c.senders[i].awake then Resting else Signalling);
  }

  lemma SignalKeeps<T>(a: Fifo<T>, c: Control<T>, i: nat, amount: nat)
    requires Protocol(a, c) && i in c.senders && c.senders[i].Signalling? && amount > 0
    ensures Protocol(a, c.Set(i, Resting).(eventfd := c.eventfd + amount))
  {
    SetOwing(c.senders, i, Resting);
    assert i in Owing(c.senders);
  }

  lemma SenderSteps<T>(m: Mailbox<T>, f: Fifo<T>, a: Choice<T>)
    requires Protocol(f, m.ctl) && InStep(m.pipe, m.ctl) && Possible(m, a) && (a.Call? || a.Lock? || a.Unlock? || a.Signal?)
    ensures Mailboxes.Step(m, a).Some? && Protocol(f, Mailboxes.Step(m, a).value.ctl)
  {
    hide Tokens, Owing;
    match a
    case Call(i, msg) => CallKeeps(f, m.ctl, i, msg);
    case Lock(i) => LockKeeps(f, m.ctl, i, m.ctl.senders[i].msg);
    case Unlock(i) => UnlockKeeps(f, m.ctl, i);
    case Signal(i, amount) => SignalKeeps(f, m.ctl, i, amount);
  }

  lemma ReceiverSteps<T>(m: Mailbox<T>, f: Fifo<T>, a: Choice<T>)
    requires Protocol(f, m.ctl) && InStep(m.pipe, m.ctl) && Possible(m, a)
    requires a.EnterIn? || a.CallRecv? || a.Poll? || a.Consume?
    ensures Mailboxes.Step(m, a).Some? && Protocol(f, Mailboxes.Step(m, a).value.ctl)
  {
    hide Owing;
    assert Owing(m.ctl.senders) == {} || |Owing(m.ctl.senders)| > 0;
  }

  /** These steps at most start an operation of the pipe. */
  lemma ControlInStep<T>(m: Mailbox<T>, f: Fifo<T>, a: Choice<T>)
    requires Protocol(f, m.ctl) && InStep(m.pipe, m.ctl)
    requires Possible(m, a) && !a.MoveSender? && !a.MoveReceiver? && Mailboxes.Step(m, a).Some?
    ensures InStep(Mailboxes.Step(m, a).value.pipe, Mailboxes.Step(m, a).value.ctl)
    ensures var q := Mailboxes.Step(m, a).value.pipe;
            q == m.pipe
            || (a.Lock? && m.pipe.wpc.WIdle? && q == Move(m.pipe, BeginWrite(m.ctl.senders[a.i].msg, false)).pipe)
            || (m.pipe.rpc.RIdle? && q == Move(m.pipe, BeginRead).pipe)
  {
    hide Owing, Tokens;
  }

  lemma ControlKeeps<T>(m: Mailbox<T>, s: P.Shape<T>, a: Choice<T>)
    requires Inv(m, s) && Possible(m, a) && !a.MoveSender? && !a.MoveReceiver?
    ensures Mailboxes.Step(m, a).Some? && Inv(Mailboxes.Step(m, a).value, s)
  {
    hide P.Rep, Protocol, InStep, Mailboxes.Step;
    var f := P.Abs(m.pipe, s) by { P.Sorted(m.pipe, s); }
    if a.Call? || a.Lock? || a.Unlock? || a.Signal? { SenderSteps(m, f, a); } else { ReceiverSteps(m, f, a); }
    ControlInStep(m, f, a);
    var q := Mailboxes.Step(m, a).value.pipe;
    if q != m.pipe {
      if a.Lock? && m.pipe.wpc.WIdle? && q == Move(m.pipe, BeginWrite(m.ctl.senders[a.i].msg, false)).pipe {
        P.BeginSim(m.pipe, s, BeginWrite(m.ctl.senders[a.i].msg, false));
      } else {
        P.BeginSim(m.pipe, s, BeginRead);
      }
    }
  }

  lemma SenderMoves<T>(m: Mailbox<T>, s: P.Shape<T>, i: nat, b: Block<T>) returns (t: P.Shape<T>)
    requires Inv(m, s) && Possible(m, MoveSender(i, b))
    ensures Mailboxes.Step(m, MoveSender(i, b)).Some? && Inv(Mailboxes.Step(m, MoveSender(i, b)).value, t)
  {
    hide P.Rep, P.Abs, Tokens, Owing, WriterStep, AtomicQueue.Step;
    P.Sorted(m.pipe, s);
    var c := m.ctl;
    t := P.Simulation(m.pipe, s, MoveWriter(b));
    var res := WriterStep(m.pipe, b);
    P.Sorted(res.pipe, t);
    if c.senders[i].Writing? {
      var msg := c.senders[i].msg;
      WriteGoesOn(m.pipe, b, msg);
      if res.event.Some? {
        WroteKeeps(P.Abs(m.pipe, s), P.Abs(res.pipe, t), c, i, msg);
        P.BeginSim(res.pipe, t, BeginFlush);
      }
    } else {
      FlushGoesOn(m.pipe, b);
      if res.event.Some? {
        FlushedKeeps(P.Abs(m.pipe, s), P.Abs(res.pipe, t), c, i, res.event.value.awake);
      }
    }
  }

  lemma ReceiverMoves<T>(m: Mailbox<T>, s: P.Shape<T>) returns (t: P.Shape<T>)
    requires Inv(m, s) && Possible(m, MoveReceiver)
    ensures Mailboxes.Step(m, MoveReceiver).Some? && Inv(Mailboxes.Step(m, MoveReceiver).value, t)
  {
    hide P.Rep, P.Abs, Tokens, Owing, ReaderStep;
    P.Sorted(m.pipe, s);
    var c := m.ctl;
    t := P.Simulation(m.pipe, s, MoveReader);
    var res := ReaderStep(m.pipe);
    P.Sorted(res.pipe, t);
    ReadGoesOn(m.pipe);
    if res.event.Some? {
      var a, b := P.Abs(m.pipe, s), P.Abs(res.pipe, t);
      if res.event.value.ReadGot? {
        GotKeeps(a, b, c, res.event.value.item);
      } else {
        NothingKeeps(a, b, c);
      }
    }
  }

  lemma Preserved<T>(m: Mailbox<T>, s: P.Shape<T>, a: Choice<T>) returns (t: P.Shape<T>)
    requires Inv(m, s) && Possible(m, a)
    ensures Mailboxes.Step(m, a).Some? && Inv(Mailboxes.Step(m, a).value, t)
  {
    hide Inv, Mailboxes.Step;
    if a.MoveSender? {
      t := SenderMoves(m, s, a.i, a.block);
    } else if a.MoveReceiver? {
      t := ReceiverMoves(m, s);
    } else {
      t := s;
      ControlKeeps(m, s, a);
    }
  }

  lemma InitInv<T>(threads: set<nat>, first: Block<T>, second: Block<T>) returns (s: P.Shape<T>)
    requires P.Allocated(GRANULARITY, first, second)
    ensures Mailboxes.Init(threads, first, second).Some? && Inv(Mailboxes.Init(threads, first, second).value, s)
  {
    hide P.Rep, P.Abs;
    var empty := YPipe.Init(GRANULARITY, first, second);
    s := P.InitRep(GRANULARITY, first, second);
    P.BeginSim(empty, s, BeginCheckRead);
    s := P.Simulation(empty.(rpc := RCheck(false)), s, MoveReader);
    var m := Mailboxes.Init(threads, first, second).value;
    P.Sorted(m.pipe, s);
    assert Owing(m.ctl.senders) == {};
  }

  // ---- for every schedule ----

  lemma RunInv<T>(m: Mailbox<T>, s: P.Shape<T>, schedule: seq<Choice<T>>) returns (t: P.Shape<T>)
    requires Inv(m, s)
    ensures Mailboxes.Run(m, schedule).Some? && Inv(Mailboxes.Run(m, schedule).value, t)
    decreases |schedule|
  {
    hide Inv, Mailboxes.Step, Possible;
    if schedule == [] {
      t := s;
    } else if !Possible(m, schedule[0]) {
      t := RunInv(m, s, schedule[1..]);
    } else {
      var u := Preserved(m, s, schedule[0]);
      t := RunInv(Mailboxes.Step(m, schedule[0]).value, u, schedule[1..]);
    }
  }

  /** The mailbox after its constructor and a schedule. */
  function After<T>(threads: set<nat>, first: Block<T>, second: Block<T>, schedule: seq<Choice<T>>): Option<Mailbox<T>>
  {
    match Mailboxes.Init(threads, first, second)
    case None => None
    case Some(m) => Mailboxes.Run(m, schedule)
  }

  /** No schedule faults, lets two threads into one end of the pipe, or makes Recv report success
      without a message; and exactly one of these holds at every moment: c_ is NULL, one sender
      owes a signal, the eventfd is readable, the receiver is active. */
  lemma WakeUpToken<T>(threads: set<nat>, first: Block<T>, second: Block<T>, schedule: seq<Choice<T>>)
    requires P.Allocated(GRANULARITY, first, second)
    ensures After(threads, first, second, schedule).Some?
    ensures var m := After(threads, first, second, schedule).value; Tokens(m.pipe.c.None?, m.ctl) == 1
  {
    var s := InitInv(threads, first, second);
    var t := RunInv(Mailboxes.Init(threads, first, second).value, s, schedule);
    var m := After(threads, first, second, schedule).value;
    P.Sorted(m.pipe, t);
    assert P.Abs(m.pipe, t).asleep == m.pipe.c.None?;
  }

  // ---- r_ is never NULL here ----

  /** A receiver that reads is active, so c_ is not NULL and the check does not make r_ NULL. */
  lemma NotNullKept<T>(m: Mailbox<T>, s: P.Shape<T>, a: Choice<T>)
    requires Inv(m, s) && Possible(m, a) && Mailboxes.Step(m, a).Some? && m.pipe.r.Some?
    ensures Mailboxes.Step(m, a).value.pipe.r.Some?
  {
    hide P.Rep, Owing;
    if a.MoveReceiver? && m.pipe.rpc.RCheck? {
      P.Sorted(m.pipe, s);
      assert !P.Abs(m.pipe, s).asleep;
      P.CheckNull(m.pipe, s);
    }
  }

  lemma {:induction false} RunNotNull<T>(m: Mailbox<T>, s: P.Shape<T>, schedule: seq<Choice<T>>)
    requires Inv(m, s) && m.pipe.r.Some?
    ensures Mailboxes.Run(m, schedule).Some? ==> Mailboxes.Run(m, schedule).value.pipe.r.Some?
    decreases |schedule|
  {
    hide Inv, Mailboxes.Step, Possible;
    if schedule != [] {
      if !Possible(m, schedule[0]) {
        RunNotNull(m, s, schedule[1..]);
      } else {
        var t := Preserved(m, s, schedule[0]);
        NotNullKept(m, s, schedule[0]);
        RunNotNull(Mailboxes.Step(m, schedule[0]).value, t, schedule[1..]);
      }
    }
  }

  /** In every reachable state of a mailbox, r_ is not NULL. */
  lemma ReaderNeverNull<T>(threads: set<nat>, first: Block<T>, second: Block<T>, schedule: seq<Choice<T>>)
    requires P.Allocated(GRANULARITY, first, second)
    ensures After(threads, first, second, schedule).Some?
    ensures After(threads, first, second, schedule).value.pipe.r.Some?
  {
    hide Inv;
    var s := InitInv(threads, first, second);
    var m := Mailboxes.Init(threads, first, second).value;
    var t := RunInv(m, s, schedule);
    RunNotNull(m, s, schedule);
  }

  /** The messages whose Flush has taken effect: all sent, but for one whose sender is still in it. */
  function FlushedCount<T>(c: Control<T>): int
  {
    |c.sent| - Unit(HolderPc(c).Flushing?)
  }

  /** Messages received, then those flushed into the pipe, then the one whose sender is still in
      Flush, are all messages in the order of the lock; while one is flushed and not received, the
      receiver is active, or the eventfd is readable, or a sender is about to signal.  Once
      Worker::In has returned the receiver is not active, so a signal is still to come. */
  lemma NoLostMessage<T>(threads: set<nat>, first: Block<T>, second: Block<T>, schedule: seq<Choice<T>>)
    returns (s: P.Shape<T>)
    requires P.Allocated(GRANULARITY, first, second)
    ensures After(threads, first, second, schedule).Some?
    ensures var m := After(threads, first, second, schedule).value;
            && P.Rep(m.pipe, s) && P.Ordered(s)
            && m.ctl.sent == m.ctl.got + P.Abs(m.pipe, s).queue + P.Abs(m.pipe, s).complete
            && |P.Abs(m.pipe, s).complete| == Unit(HolderPc(m.ctl).Flushing?)
    ensures var c := After(threads, first, second, schedule).value.ctl;
            && c.got <= c.sent
            && (c.recv.Outside? ==> !c.active)
            && |c.got| <= FlushedCount(c)
            && (|c.got| < FlushedCount(c) ==> c.active || c.eventfd > 0 || Owing(c.senders) != {})
  {
    var start := InitInv(threads, first, second);
    s := RunInv(Mailboxes.Init(threads, first, second).value, start, schedule);
    var m := After(threads, first, second, schedule).value;
    P.Sorted(m.pipe, s);
    NotForgotten(P.Abs(m.pipe, s), m.ctl);
  }

  lemma NotForgotten<T>(a: Fifo<T>, c: Control<T>)
    requires Protocol(a, c)
    ensures c.got <= c.sent && |c.got| <= FlushedCount(c)
    ensures |c.got| < FlushedCount(c) ==> c.active || c.eventfd > 0 || Owing(c.senders) != {}
    ensures |a.complete| == Unit(HolderPc(c).Flushing?)
  {
    assert FlushedCount(c) == |c.got| + |a.queue|;
    assert |Owing(c.senders)| > 0 ==> Owing(c.senders) != {};
  }

  // ---- the receiver alone delivers everything ----

  predicate ReceiversChoice<T>(a: Choice<T>)
  {
    a.EnterIn? || a.CallRecv? || a.MoveReceiver? || a.Poll? || a.Consume?
  }

  /** What the receiver does next: a poll that is not interrupted, and otherwise no choice. */
  function NextChoice<T>(c: Control<T>): Choice<T>
  {
    match c.recv
    case Outside => EnterIn
    case Fetching => CallRecv
    case Reading => MoveReceiver
    case ReadingWoken => MoveReceiver
    case Polling => Poll(false)
    case Consuming => Consume
  }

  /** The receiver's way to the next message. */
  function Distance<T>(m: Mailbox<T>): nat
  {
    match m.ctl.recv
    case Outside => 40
    case Fetching => if m.ctl.active then 20 else 30
    case Polling => 29
    case Consuming => 28
    case Reading => ReaderRank(m.pipe.rpc)
    case ReadingWoken => ReaderRank(m.pipe.rpc)
  }

  ghost predicate AllRest<T>(c: Control<T>)
  {
    forall i :: i in c.senders ==> c.senders[i].Resting?
  }

  lemma RestFacts<T>(a: Fifo<T>, c: Control<T>)
    requires Protocol(a, c) && AllRest(c) && c.got != c.sent
    ensures a.queue != [] && !a.asleep && (c.eventfd > 0 <==> !c.active) && |c.got| < |c.sent|
  {
    assert Owing(c.senders) == {};
  }

  lemma RankGoesDown<T>(p: Pipe<T>)
    requires !p.rpc.RIdle? && ReaderStep(p).Next? && ReaderStep(p).event.None?
    ensures ReaderRank(ReaderStep(p).pipe.rpc) < ReaderRank(p.rpc)
  {
  }

  /** While a message is in the pipe and no sender moves, the receiver's step is possible, and gets
      it closer to the message or receives it. */
  lemma ReceiverProgress<T>(m: Mailbox<T>, s: P.Shape<T>) returns (t: P.Shape<T>)
    requires Inv(m, s) && AllRest(m.ctl) && m.ctl.got != m.ctl.sent
    ensures var a := NextChoice(m.ctl);
            && Possible(m, a) && Mailboxes.Step(m, a).Some? && Inv(Mailboxes.Step(m, a).value, t)
            && var z := Mailboxes.Step(m, a).value;
            && z.ctl.senders == m.ctl.senders && z.ctl.sent == m.ctl.sent
            && (if z.ctl.got == m.ctl.got then Distance(z) < Distance(m) else |z.ctl.got| == |m.ctl.got| + 1 <= |z.ctl.sent|)
  {
    hide P.Rep, P.Abs, Tokens, Owing, ReaderStep;
    P.Sorted(m.pipe, s);
    RestFacts(P.Abs(m.pipe, s), m.ctl);
    var a := NextChoice(m.ctl);
    t := Preserved(m, s, a);
    if a.MoveReceiver? {
      var u := P.Simulation(m.pipe, s, MoveReader);
      var res := ReaderStep(m.pipe);
      P.Sorted(res.pipe, u);
      ReadGoesOn(m.pipe);
      if res.event.None? { RankGoesDown(m.pipe); }
    }
  }

  lemma {:induction false} ReceiverDelivers<T>(m: Mailbox<T>, s: P.Shape<T>) returns (rest: seq<Choice<T>>)
    requires Inv(m, s) && AllRest(m.ctl)
    ensures forall i :: 0 <= i < |rest| ==> ReceiversChoice(rest[i])
    ensures Mailboxes.Run(m, rest).Some?
    ensures Mailboxes.Run(m, rest).value.ctl.got == Mailboxes.Run(m, rest).value.ctl.sent == m.ctl.sent
    decreases |m.ctl.sent| - |m.ctl.got|, Distance(m)
  {
    hide Mailboxes.Step, Possible, Distance, Inv;
    if m.ctl.got == m.ctl.sent {
      rest := [];
    } else {
      var a := NextChoice(m.ctl);
      var t := ReceiverProgress(m, s);
      var z := Mailboxes.Step(m, a).value;
      var more := ReceiverDelivers(z, t);
      rest := [a] + more;
      assert rest[1..] == more;
    }
  }

  lemma {:induction false} RunOn<T>(m: Mailbox<T>, first: seq<Choice<T>>, more: seq<Choice<T>>)
    requires Mailboxes.Run(m, first).Some?
    ensures Mailboxes.Run(m, first + more) == Mailboxes.Run(Mailboxes.Run(m, first).value, more)
    decreases |first|
  {
    hide Mailboxes.Step, Possible;
    if first == [] {
      assert first + more == more;
    } else {
      assert (first + more)[0] == first[0] && (first + more)[1..] == first[1..] + more;
      if !Possible(m, first[0]) {
        RunOn(m, first[1..], more);
      } else {
        RunOn(Mailboxes.Step(m, first[0]).value, first[1..], more);
      }
    }
  }

  /** From every reachable state in which all senders have returned, the receiver running alone
      receives everything that was sent: it never waits for a signal that does not come. */
  lemma EverythingArrives<T>(threads: set<nat>, first: Block<T>, second: Block<T>, schedule: seq<Choice<T>>)
    returns (rest: seq<Choice<T>>)
    requires P.Allocated(GRANULARITY, first, second)
    requires After(threads, first, second, schedule).Some? ==> AllRest(After(threads, first, second, schedule).value.ctl)
    ensures forall i :: 0 <= i < |rest| ==> ReceiversChoice(rest[i])
    ensures After(threads, first, second, schedule).Some? && After(threads, first, second, schedule + rest).Some?
    ensures var c := After(threads, first, second, schedule + rest).value.ctl;
            c.got == c.sent == After(threads, first, second, schedule).value.ctl.sent
  {
    hide Inv;
    var s := InitInv(threads, first, second);
    var start := Mailboxes.Init(threads, first, second).value;
    var t := RunInv(start, s, schedule);
    rest := ReceiverDelivers(Mailboxes.Run(start, schedule).value, t);
    RunOn(start, schedule, rest);
  }
}
