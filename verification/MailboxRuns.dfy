/** What the callers of Mailbox::Send see over a whole schedule: every message they passed is
    handed on as it is, in their order, and arrives. */
module MailboxRuns {
  import opened Wrappers
  import opened YPipe
  import opened Mailboxes
  import opened MailboxProof
  import P = YPipeProof
  import R = YPipeRuns

  // ---- histories ----

  /** The call of Send that `a` is, if its thread is outside the mailbox. */
  function CallIn<T>(m: Mailbox<T>, a: Choice<T>): seq<(nat, T)>
  {
    match a
    case Call(i, msg) => if i in m.ctl.senders && m.ctl.senders[i].Resting? then [(i, msg)] else []
    case _ => []
  }

  /** All calls of Send in a schedule, each with its thread, in the order in which they begin. */
  function Called<T>(m: Mailbox<T>, schedule: seq<Choice<T>>): seq<(nat, T)>
    decreases |schedule|
  {
    if schedule == [] then []
    else
      CallIn(m, schedule[0]) +
      if !Possible(m, schedule[0]) then Called(m, schedule[1..])
      else match Step(m, schedule[0])
        case None => []
        case Some(z) => Called(z, schedule[1..])
  }

  /** The message that `sent` gets in the step from `m` to `z`, with the thread that moves. */
  function Put<T>(m: Mailbox<T>, a: Choice<T>, z: Mailbox<T>): seq<(nat, T)>
  {
    if a.MoveSender? && |z.ctl.sent| > |m.ctl.sent| then [(a.i, z.ctl.sent[|m.ctl.sent|])] else []
  }

  /** Everything that `sent` gets, in order, with the threads. */
  function Sent<T>(m: Mailbox<T>, schedule: seq<Choice<T>>): seq<(nat, T)>
    decreases |schedule|
  {
    if schedule == [] then []
    else if !Possible(m, schedule[0]) then Sent(m, schedule[1..])
    else match Step(m, schedule[0])
      case None => []
      case Some(z) => Put(m, schedule[0], z) + Sent(z, schedule[1..])
  }

  function Items<T>(h: seq<(nat, T)>): seq<T>
  {
    seq(|h|, k requires 0 <= k < |h| => h[k].1)
  }

  /** The part of thread `i`. */
  function Of<T>(h: seq<(nat, T)>, i: nat): seq<T>
  {
    if h == [] then []
    else (if h[0].0 == i then [h[0].1] else []) + Of(h[1..], i)
  }

  lemma OfNext<T>(x: (nat, T), h: seq<(nat, T)>, i: nat)
    ensures Of([x] + h, i) == (if x.0 == i then [x.1] else []) + Of(h, i)
  {
    assert ([x] + h)[1..] == h;
  }

  lemma {:induction false} OfJoin<T>(a: seq<(nat, T)>, b: seq<(nat, T)>, i: nat)
    ensures Of(a + b, i) == Of(a, i) + Of(b, i)
  {
    hide Of;
    if a == [] {
      assert a + b == b && Of(a, i) == [] by { OfNone<T>(i); }
    } else {
      var x, rest := a[0], a[1..];
      assert a == [x] + rest && a + b == [x] + (rest + b);
      OfJoin(rest, b, i);
      OfNext(x, rest, i);
      OfNext(x, rest + b, i);
    }
  }

  lemma OfNone<T>(i: nat)
    ensures Of<T>([], i) == []
  {
  }

  /** The message that thread `i` was given and has not put into the pipe. */
  function Held<T>(c: Control<T>, i: nat): seq<T>
  {
    if i !in c.senders then []
    else match c.senders[i]
      case Locking(msg) => [msg]
      case Writing(msg) => [msg]
      case _ => []
  }

  // ---- every call is handed on ----

  lemma StepHandsOn<T>(m: Mailbox<T>, a: Choice<T>, i: nat)
    requires Possible(m, a) && Step(m, a).Some?
    ensures var z := Step(m, a).value;
            && Held(m.ctl, i) + Of(CallIn(m, a), i) == Of(Put(m, a, z), i) + Held(z.ctl, i)
            && z.ctl.sent == m.ctl.sent + Items(Put(m, a, z))
  {
    hide WriterStep, ReaderStep, WriterEnabled;
  }

  lemma NoCall<T>(m: Mailbox<T>, a: Choice<T>)
    requires !Possible(m, a)
    ensures CallIn(m, a) == []
  {
  }

  ghost predicate HandedOn<T>(m: Mailbox<T>, schedule: seq<Choice<T>>, z: Mailbox<T>, i: nat)
  {
    && Held(m.ctl, i) + Of(Called(m, schedule), i) == Of(Sent(m, schedule), i) + Held(z.ctl, i)
    && z.ctl.sent == m.ctl.sent + Items(Sent(m, schedule))
  }

  lemma {:induction false} RunHandsOn<T>(m: Mailbox<T>, schedule: seq<Choice<T>>, i: nat)
    requires Mailboxes.Run(m, schedule).Some?
    ensures HandedOn(m, schedule, Mailboxes.Run(m, schedule).value, i)
    decreases |schedule|
  {
    hide Step, Possible, CallIn, Held, Put;
    if schedule != [] {
      var a := schedule[0];
      if !Possible(m, a) {
        NoCall(m, a);
        RunHandsOn(m, schedule[1..], i);
        assert Called(m, schedule) == Called(m, schedule[1..]);
      } else {
        var z := Step(m, a).value;
        StepHandsOn(m, a, i);
        RunHandsOn(z, schedule[1..], i);
        OfJoin(CallIn(m, a), Called(z, schedule[1..]), i);
        OfJoin(Put(m, a, z), Sent(z, schedule[1..]), i);
        HandsOnJoin(Held(m.ctl, i), Of(CallIn(m, a), i), Of(Put(m, a, z), i), Held(z.ctl, i),
                    Of(Called(z, schedule[1..]), i), Of(Sent(z, schedule[1..]), i),
                    Held(Mailboxes.Run(m, schedule).value.ctl, i));
        assert Items(Put(m, a, z) + Sent(z, schedule[1..])) == Items(Put(m, a, z)) + Items(Sent(z, schedule[1..]));
      }
    }
  }

  lemma HandsOnJoin<T>(held: seq<T>, call: seq<T>, put: seq<T>, between: seq<T>, calls: seq<T>, puts: seq<T>, last: seq<T>)
    requires held + call == put + between && between + calls == puts + last
    ensures held + (call + calls) == (put + puts) + last
  {
    assert held + (call + calls) == (held + call) + calls == put + (between + calls);
  }

  /** `all` is put together from what each thread contributed to `parts`, without changing the
      order of any thread: `tags` says whose each item is. */
  ghost predicate Interleaves<T>(all: seq<T>, tags: seq<(nat, T)>, parts: seq<(nat, T)>)
  {
    all == Items(tags) && forall i: nat :: Of(tags, i) == Of(parts, i)
  }

  /** For every schedule: what a thread passed to Send is, in order, what it has put into `sent`,
      and then the message it holds, if it is before or in pipe_.Write. */
  lemma CallsHandedOn<T>(threads: set<nat>, first: Block<T>, second: Block<T>, schedule: seq<Choice<T>>)
    requires P.Allocated(GRANULARITY, first, second)
    ensures Mailboxes.Init(threads, first, second).Some? && After(threads, first, second, schedule).Some?
    ensures var start, c := Mailboxes.Init(threads, first, second).value, After(threads, first, second, schedule).value.ctl;
            && c.sent == Items(Sent(start, schedule))
            && forall i: nat :: Of(Called(start, schedule), i) == Of(Sent(start, schedule), i) + Held(c, i)
  {
    hide Inv, Held;
    var s := InitInv(threads, first, second);
    var start := Mailboxes.Init(threads, first, second).value;
    var t := RunInv(start, s, schedule);
    var c := After(threads, first, second, schedule).value.ctl;
    RunHandsOn(start, schedule, 0);
    StartEmpty(threads, first, second, 0);
    assert [] + Items(Sent(start, schedule)) == Items(Sent(start, schedule));
    forall i: nat ensures Of(Called(start, schedule), i) == Of(Sent(start, schedule), i) + Held(c, i) {
      RunHandsOn(start, schedule, i);
      StartEmpty(threads, first, second, i);
      assert [] + Of(Called(start, schedule), i) == Of(Called(start, schedule), i);
    }
  }

  lemma StartEmpty<T>(threads: set<nat>, first: Block<T>, second: Block<T>, i: nat)
    requires Mailboxes.Init(threads, first, second).Some?
    ensures var c := Mailboxes.Init(threads, first, second).value.ctl;
            Held(c, i) == [] && c.sent == [] && c.got == []
  {
  }

  // ---- every call of Send returns ----

  function SenderRank<T>(m: Mailbox<T>, i: nat): nat
    requires i in m.ctl.senders
  {
    match m.ctl.senders[i]
    case Resting => 0
    case Signalling => 1
    case Unlocking(_) => 2
    case Flushing => 3 + WriterRank(m.pipe.wpc)
    case Writing(_) => 6 + WriterRank(m.pipe.wpc)
    case Locking(_) => 12
  }

  /** What thread `i` does next, inside Send; `b` is what malloc returns. */
  function NextOf<T>(m: Mailbox<T>, i: nat, b: Block<T>): Choice<T>
    requires i in m.ctl.senders && !m.ctl.senders[i].Resting?
  {
    match m.ctl.senders[i]
    case Locking(_) => Lock(i)
    case Unlocking(_) => Unlock(i)
    case Signalling => Signal(i, 1)
    case _ => MoveSender(i, b)
  }

  /** malloc can always return something. */
  lemma SomeBlock<T>(m: Mailbox<T>, s: P.Shape<T>) returns (b: Block<T>)
    requires Inv(m, s)
    ensures Mallocable(m.pipe, b)
  {
    hide Protocol, InStep, P.Stored, P.Spread, P.WriterKnows, P.ReaderKnows, P.WordKnows, P.SameChunk;
    assert s.at[s.lo].chunk in P.Live(s.at, s.lo);
    var id := NewId(m.pipe.heap.Keys);
    b := Block(id, m.pipe.heap[s.at[s.lo].chunk]);
  }

  lemma NewId(ids: set<nat>) returns (id: nat)
    ensures id !in ids
    ensures forall j :: j in ids ==> j < id
  {
    if ids == {} {
      id := 0;
    } else {
      var j :| j in ids;
      var k := NewId(ids - {j});
      id := if j < k then k else j + 1;
      forall x | x in ids ensures x < id {
        if x != j { assert x in ids - {j}; }
      }
    }
  }

  /** If nobody else holds the lock, the next step of a thread inside Send is possible, and it gets
      closer to the end. */
  lemma SenderProgress<T>(m: Mailbox<T>, s: P.Shape<T>, i: nat, b: Block<T>) returns (t: P.Shape<T>)
    requires Inv(m, s) && i in m.ctl.senders && !m.ctl.senders[i].Resting? && Mallocable(m.pipe, b)
    requires m.ctl.holder.None? || m.ctl.holder == Some(i)
    ensures var a := NextOf(m, i, b);
            && Possible(m, a) && Mailboxes.Step(m, a).Some? && Inv(Mailboxes.Step(m, a).value, t)
            && var z := Mailboxes.Step(m, a).value;
            && i in z.ctl.senders && SenderRank(z, i) < SenderRank(m, i)
            && z.ctl.senders == m.ctl.senders[i := z.ctl.senders[i]]
            && (z.ctl.holder.None? || z.ctl.holder == Some(i))
            && (z.ctl.senders[i].Resting? ==> z.ctl.holder.None?)
  {
    hide P.Rep, P.Abs, Tokens, Owing, WriterStep;
    P.Sorted(m.pipe, s);
    var a := NextOf(m, i, b);
    assert Possible(m, a);
    t := Preserved(m, s, a);
    if a.MoveSender? {
      var u := P.Simulation(m.pipe, s, MoveWriter(b));
      var res := WriterStep(m.pipe, b);
      if res.event.None? { R.WriterAnswers(m.pipe, b, true); }
    }
  }

  /** A step inside Send. */
  predicate SendersChoice<T>(a: Choice<T>)
  {
    a.Lock? || a.MoveSender? || a.Unlock? || a.Signal?
  }

  lemma {:induction false} SenderHome<T>(m: Mailbox<T>, s: P.Shape<T>, i: nat) returns (rest: seq<Choice<T>>, t: P.Shape<T>)
    requires Inv(m, s) && i in m.ctl.senders
    requires m.ctl.holder.None? || m.ctl.holder == Some(i)
    ensures forall k :: 0 <= k < |rest| ==> SendersChoice(rest[k])
    ensures Mailboxes.Run(m, rest).Some? && Inv(Mailboxes.Run(m, rest).value, t)
    ensures var z := Mailboxes.Run(m, rest).value; z.ctl.senders == m.ctl.senders[i := Resting] && z.ctl.holder.None?
    decreases SenderRank(m, i)
  {
    hide Mailboxes.Step, Possible, SenderRank, Inv;
    if m.ctl.senders[i].Resting? {
      rest, t := [], s;
      HolderInside(m, s);
      assert m.ctl.senders[i := Resting] == m.ctl.senders;
    } else {
      var b := SomeBlock(m, s);
      var u := SenderProgress(m, s, i, b);
      var a := NextOf(m, i, b);
      var more;
      more, t := SenderHome(Mailboxes.Step(m, a).value, u, i);
      rest := [a] + more;
      assert rest[1..] == more;
    }
  }

  lemma HolderInside<T>(m: Mailbox<T>, s: P.Shape<T>)
    requires Inv(m, s)
    ensures m.ctl.holder.Some? ==> m.ctl.holder.value in m.ctl.senders && InsideLock(m.ctl.senders[m.ctl.holder.value])
  {
    hide P.Rep, P.Abs, Tokens, Owing;
    P.Sorted(m.pipe, s);
  }

  ghost function Busy<T>(c: Control<T>): set<nat>
  {
    set i | i in c.senders && !c.senders[i].Resting?
  }

  lemma {:induction false} SendersReturn<T>(m: Mailbox<T>, s: P.Shape<T>) returns (rest: seq<Choice<T>>, t: P.Shape<T>)
    requires Inv(m, s)
    ensures forall k :: 0 <= k < |rest| ==> SendersChoice(rest[k])
    ensures Mailboxes.Run(m, rest).Some? && Inv(Mailboxes.Run(m, rest).value, t)
    ensures AllRest(Mailboxes.Run(m, rest).value.ctl)
    decreases |Busy(m.ctl)|
  {
    hide Mailboxes.Step, Possible, Inv;
    HolderInside(m, s);
    if Busy(m.ctl) == {} {
      rest, t := [], s;
      forall i | i in m.ctl.senders ensures m.ctl.senders[i].Resting? { assert i !in Busy(m.ctl); }
    } else {
      var i :| i in Busy(m.ctl);
      if m.ctl.holder.Some? { i := m.ctl.holder.value; }
      var head, u := SenderHome(m, s, i);
      var z := Mailboxes.Run(m, head).value;
      assert Busy(z.ctl) == Busy(m.ctl) - {i};
      var more;
      more, t := SendersReturn(z, u);
      rest := head + more;
      RunOn(m, head, more);
    }
  }

  lemma {:induction false} NoMoreCalls<T>(m: Mailbox<T>, schedule: seq<Choice<T>>, rest: seq<Choice<T>>)
    requires forall k :: 0 <= k < |rest| ==> !rest[k].Call?
    ensures Called(m, schedule + rest) == Called(m, schedule)
    decreases |schedule| + |rest|
  {
    hide Mailboxes.Step, Possible;
    if schedule != [] {
      assert (schedule + rest)[0] == schedule[0] && (schedule + rest)[1..] == schedule[1..] + rest;
      if !Possible(m, schedule[0]) {
        NoMoreCalls(m, schedule[1..], rest);
      } else if Mailboxes.Step(m, schedule[0]).Some? {
        NoMoreCalls(Mailboxes.Step(m, schedule[0]).value, schedule[1..], rest);
      }
    } else if rest != [] {
      assert schedule + rest == rest && [] + rest[1..] == rest[1..];
      assert CallIn(m, rest[0]) == [];
      if !Possible(m, rest[0]) {
        NoMoreCalls(m, [], rest[1..]);
      } else if Mailboxes.Step(m, rest[0]).Some? {
        NoMoreCalls(Mailboxes.Step(m, rest[0]).value, [], rest[1..]);
      }
    }
  }

  /** From every reachable state every call of Send can be brought to its end without a new call, and
      the receiver alone then receives exactly what the threads had passed to Send, each thread's
      messages in its order. */
  lemma EveryCallArrives<T>(threads: set<nat>, first: Block<T>, second: Block<T>, schedule: seq<Choice<T>>)
    returns (ending: seq<Choice<T>>, receiving: seq<Choice<T>>, tags: seq<(nat, T)>)
    requires P.Allocated(GRANULARITY, first, second)
    ensures forall k :: 0 <= k < |ending| ==> SendersChoice(ending[k])
    ensures forall k :: 0 <= k < |receiving| ==> ReceiversChoice(receiving[k])
    ensures Mailboxes.Init(threads, first, second).Some?
    ensures After(threads, first, second, schedule + ending).Some?
    ensures AllRest(After(threads, first, second, schedule + ending).value.ctl)
    ensures After(threads, first, second, schedule + ending + receiving).Some?
    ensures Interleaves(After(threads, first, second, schedule + ending + receiving).value.ctl.got, tags,
                        Called(Mailboxes.Init(threads, first, second).value, schedule))
  {
    hide Inv, Held;
    var s := InitInv(threads, first, second);
    var start := Mailboxes.Init(threads, first, second).value;
    var t := RunInv(start, s, schedule);
    var u;
    ending, u := SendersReturn(Mailboxes.Run(start, schedule).value, t);
    RunOn(start, schedule, ending);
    receiving := EverythingArrives(threads, first, second, schedule + ending);
    tags := Sent(start, schedule + ending);
    var c := After(threads, first, second, schedule + ending).value.ctl;
    CallsHandedOn(threads, first, second, schedule + ending);
    NoMoreCalls(start, schedule, ending);
    forall i: nat ensures Of(tags, i) == Of(Called(start, schedule), i) {
      assert Held(c, i) == [] by { NothingHeld(c, i); }
      assert Of(tags, i) + [] == Of(tags, i);
    }
  }

  lemma NothingHeld<T>(c: Control<T>, i: nat)
    requires AllRest(c)
    ensures Held(c, i) == []
  {
  }
}
