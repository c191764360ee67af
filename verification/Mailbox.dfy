/** src/core/mailbox.cc over the pipe, with src/core/signaler.cc and the loop of Worker::In
    (src/core/worker.cc): any number of senders, one receiver.  The mutex and the eventfd are
    atomic; the pipe operations keep the steps of module YPipe. */
module Mailboxes {
  import opened Wrappers
  import opened AtomicQueue
  import opened YPipe

  const GRANULARITY: nat := 16

  /** A sender inside Mailbox::Send: before Lock, in pipe_.Write, in pipe_.Flush, before UnLock
      with Flush's answer, before signaler_.Send. */
  datatype SenderPc<T> =
    | Resting
    | Locking(msg: T)
    | Writing(msg: T)
    | Flushing
    | Unlocking(awake: bool)
    | Signalling

  /** The receiver: outside Worker::In, about to call Mailbox::Recv, in the first pipe_.Read, in
      signaler_.Wait, in signaler_.RecvFailable, in the pipe_.Read whose answer is not checked. */
  datatype RecvPc = Outside | Fetching | Reading | Polling | Consuming | ReadingWoken

  /** `sent` and `got` record the messages in the order of the lock and of Recv's answers. */
  datatype Control<T> = Control(
    holder: Option<nat>, senders: map<nat, SenderPc<T>>, eventfd: nat,
    active: bool, recv: RecvPc, sent: seq<T>, got: seq<T>)
  {
    function Set(i: nat, pc: SenderPc<T>): Control<T> { this.(senders := senders[i := pc]) }
  }

  datatype Mailbox<T> = Mailbox(pipe: Pipe<T>, ctl: Control<T>)

  /** The constructor: an empty pipe, put to sleep by CheckRead; active_ is false. */
  function Init<T>(threads: set<nat>, first: Block<T>, second: Block<T>): Option<Mailbox<T>>
  {
    var pipe := YPipe.Init(GRANULARITY, first, second).(rpc := RCheck(false));
    match ReaderStep(pipe)
    case Fault => None
    case Next(q, _) =>
      Some(Mailbox(q, Control(None, map i | i in threads :: Resting, 0, false, Outside, [], [])))
  }

  datatype Choice<T> =
    | Call(i: nat, msg: T)
    | Lock(i: nat)
    | MoveSender(i: nat, block: Block<T>)
    | Unlock(i: nat)
    | Signal(i: nat, amount: nat)
    | EnterIn
    | CallRecv
    | MoveReceiver
    | Poll(interrupted: bool)
    | Consume


  predicate Possible<T>(m: Mailbox<T>, a: Choice<T>)
  {
    var c := m.ctl;
    match a
    case Call(i, _) => i in c.senders && c.senders[i].Resting?
    case Lock(i) => i in c.senders && c.senders[i].Locking? && c.holder.None?
    case MoveSender(i, b) =>
      i in c.senders && (c.senders[i].Writing? || c.senders[i].Flushing?) && WriterEnabled(m.pipe, b)
    case Unlock(i) => i in c.senders && c.senders[i].Unlocking?
    case Signal(i, amount) => i in c.senders && c.senders[i].Signalling? && amount > 0
    case EnterIn => c.recv.Outside?
    case CallRecv => c.recv.Fetching?
    case MoveReceiver => (c.recv.Reading? || c.recv.ReadingWoken?) && !m.pipe.rpc.RIdle?
    case Poll(_) => c.recv.Polling?
    case Consume => c.recv.Consuming?
  }

  /** `None`: a pointer fault, two threads on the same end of the pipe, or a Recv that reports
      success without a message. */
  function Step<T>(m: Mailbox<T>, a: Choice<T>): Option<Mailbox<T>>
    requires Possible(m, a)
  {
    var c := m.ctl;
    match a
    case Call(i, msg) => Some(m.(ctl := c.Set(i, Locking(msg))))
    case Lock(i) =>
      var msg := c.senders[i].msg;
      if !m.pipe.wpc.WIdle? then None
      else Some(Mailbox(m.pipe.(wpc := WStore(msg, false)), c.Set(i, Writing(msg)).(holder := Some(i))))
    case MoveSender(i, b) =>
      (match WriterStep(m.pipe, b)
       case Fault => None
       case Next(q, None) => Some(m.(pipe := q))
       case Next(q, Some(e)) => SenderReturns(q, c, i, e))
    // sync_.UnLock(); if (!ok) signaler_.Send()
    case Unlock(i) =>
      Some(m.(ctl := c.Set(i, if c.senders[i].awake then Resting else Signalling).(holder := None)))
    case Signal(i, amount) => Some(m.(ctl := c.Set(i, Resting).(eventfd := c.eventfd + amount)))
    case EnterIn => Some(m.(ctl := c.(recv := Fetching)))
    // if (active_) pipe_.Read(msg) ... else signaler_.Wait(timeout)
    case CallRecv =>
      if !c.active then Some(m.(ctl := c.(recv := Polling)))
      else if !m.pipe.rpc.RIdle? then None
      else Some(Mailbox(m.pipe.(rpc := RCheck(true)), c.(recv := Reading)))
    case MoveReceiver =>
      (match ReaderStep(m.pipe)
       case Fault => None
       case Next(q, None) => Some(m.(pipe := q))
       case Next(q, Some(e)) => ReceiverReturns(q, c, e))
    // poll() == -1 with EINTR: Recv fails and Worker::In calls it again; 0 and 1 are not told apart
    case Poll(interrupted) => Some(m.(ctl := c.(recv := if interrupted then Fetching else Consuming)))
    // read() of an empty eventfd fails with EAGAIN: Recv fails and Worker::In returns
    case Consume =>
      if c.eventfd == 0 then Some(m.(ctl := c.(recv := Outside)))
      else if !m.pipe.rpc.RIdle? then None
      else Some(Mailbox(m.pipe.(rpc := RCheck(true)), c.(eventfd := 0, active := true, recv := ReadingWoken)))
  }

  /** Write returned: call Flush.  Flush returned: remember its answer. */
  function SenderReturns<T>(q: Pipe<T>, c: Control<T>, i: nat, e: Event<T>): Option<Mailbox<T>>
    requires i in c.senders
  {
    if c.senders[i].Writing? && e.Wrote? && q.wpc.WIdle? then
      Some(Mailbox(q.(wpc := FCas), c.Set(i, Flushing).(sent := c.sent + [c.senders[i].msg])))
    else if c.senders[i].Flushing? && e.Flushed? then Some(Mailbox(q, c.Set(i, Unlocking(e.awake))))
    else None
  }

  /** Read returned: a message goes to Process and the loop goes on; finding nothing makes the
      receiver passive, unless it was woken, when it must not happen. */
  function ReceiverReturns<T>(q: Pipe<T>, c: Control<T>, e: Event<T>): Option<Mailbox<T>>
  {
    if e.ReadGot? then Some(Mailbox(q, c.(recv := Fetching, got := c.got + [e.item])))
    else if e.ReadNothing? && c.recv.Reading? then Some(Mailbox(q, c.(active := false, recv := Polling)))
    else None
  }

  /** The state a schedule leads to; `None` if some step went wrong. */
  function Run<T>(m: Mailbox<T>, schedule: seq<Choice<T>>): Option<Mailbox<T>>
    decreases |schedule|
  {
    if schedule == [] then Some(m)
    else if !Possible(m, schedule[0]) then Run(m, schedule[1..])
    else match Step(m, schedule[0])
      case None => None
      case Some(z) => Run(z, schedule[1..])
  }
}
