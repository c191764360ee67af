/** What a caller of the timer queue can rely on if it keeps to a rule it can check itself. */
module TimerCalls {
  import opened Wrappers
  import opened Timers
  import opened TimerRuns

  // ---- which timers may be cancelled ----

  /** CancelTimer is called for one-shots, for permanent timers that have not fired yet, and for ids
      that are no longer there. */
  ghost predicate Careful<E>(s: State<E>, a: Action<E>)
  {
    a.Stop? && 1 <= a.id <= |s.added| && s.added[a.id - 1].permanent && Times(s.fired, a.id) > 0 ==> a.id in s.stopped
  }

  ghost predicate CarefulRun<E>(s: State<E>, actions: seq<Action<E>>)
    decreases |actions|
  {
    actions == [] || (Careful(s, actions[0]) && CarefulRun(Step(s, actions[0]), actions[1..]))
  }

  /** A timer that never fired still has the key it was added with. */
  ghost predicate Fresh<E>(s: State<E>)
  {
    forall x :: x in s.queue.slots ==> x.key == x.entry.expire || (x.entry.permanent && Times(s.fired, x.entry.id) > 0)
  }

  lemma CarefulWorks<E>(s: State<E>, a: Action<E>)
    requires Inv(s) && Fresh(s) && Careful(s, a)
    ensures Works(s, a)
  {
    hide Reachable, Sorted, OneEach, Times;
    if a.Stop? && a.id in s.queue.ids {
      assert Balanced(s, a.id);
      var k := Find(s.queue.slots, a.id);
      assert s.queue.slots[k] in s.queue.slots;
      CancelExactly(s.queue, a.id);
    }
  }

  lemma FreshKept<E>(s: State<E>, a: Action<E>)
    requires Inv(s) && Fresh(s) && Works(s, a)
    ensures Fresh(Step(s, a))
  {
    hide Agree, Insert, Times, Reachable, Erase, Executed, Due;
    var z := Step(s, a);
    match a
    case Add(timeout, event, permanent, now) =>
      forall x | x in z.queue.slots
        ensures x.key == x.entry.expire || (x.entry.permanent && Times(z.fired, x.entry.id) > 0)
      {
        InInsert(s.queue.slots, Slot(now + timeout, z.queue.ids[z.queue.maxId]), x);
      }
    case Stop(id) =>
      if id in s.queue.ids {
        CancelExactly(s.queue, id);
        forall x | x in z.queue.slots ensures x in s.queue.slots { InErase(s.queue.slots, id, x); }
      }
    case Tick(now) =>
      forall x | x in z.queue.slots
        ensures x.key == x.entry.expire || (x.entry.permanent && Times(z.fired, x.entry.id) > 0)
      {
        TickFresh(s, now, x);
      }
  }

  lemma TickFresh<E>(s: State<E>, now: int, x: Slot<E>)
    requires Inv(s) && Fresh(s) && x in Executed(s.queue, now).slots
    ensures x.key == x.entry.expire || (x.entry.permanent && Times(Step(s, Tick(now)).fired, x.entry.id) > 0)
  {
    hide Rearm, Dropped, Times, Sorted, Find, OneEach;
    var due := Due(s.queue, now);
    ExecutedSlots(s.queue, now, x);
    TimesPlus(s.fired, Fires(due, now), x.entry.id);
    if x !in s.queue.slots {
      var d :| d in s.queue.slots && d.key <= now && d.entry.permanent && x == Slot(now + d.entry.timeout, d.entry);
      var i :| 0 <= i < |s.queue.slots| && s.queue.slots[i] == d;
      DueExactly(s.queue, now, i);
      assert due[i] == d;
      PrefixOneEach(s.queue.slots, |due|);
      TimesDue(due, now, d.entry.id);
      FoundIff(due, d.entry.id);
    }
  }

  /** Such callers never miss: the run stays on the path of EveryRun and OnTime. */
  lemma CarefulNeverMisses<E>(actions: seq<Action<E>>)
    requires CarefulRun(Init<E>(), actions)
    ensures Run(Init<E>(), actions).Some? && Inv(Run(Init<E>(), actions).value)
  {
    hide Step;
    InitInv<E>();
    CarefulFrom(Init<E>(), actions);
  }

  lemma {:induction false} CarefulFrom<E>(s: State<E>, actions: seq<Action<E>>)
    requires Inv(s) && Fresh(s) && CarefulRun(s, actions)
    ensures Run(s, actions).Some? && Inv(Run(s, actions).value)
    decreases |actions|
  {
    hide Inv, Step, Works, Fresh, Careful;
    if actions != [] {
      CarefulWorks(s, actions[0]);
      StepKeeps(s, actions[0]);
      FreshKept(s, actions[0]);
      CarefulFrom(Step(s, actions[0]), actions[1..]);
    }
  }

  // ---- the poll time ----

  /** Timeouts are non-negative ints, and the clock, which stood at `clock`, does not go back. */
  predicate SaneCalls<E>(actions: seq<Action<E>>, clock: int)
    decreases |actions|
  {
    if actions == [] then true
    else
      && (actions[0].Add? ==> 0 <= actions[0].timeout < 0x8000_0000)
      && clock <= ClockAfter(actions[0], clock) && SaneCalls(actions[1..], ClockAfter(actions[0], clock))
  }

  function ClockAfter<E>(a: Action<E>, clock: int): int
  {
    if a.Stop? then clock else a.now
  }

  function LastClock<E>(actions: seq<Action<E>>, clock: int): int
    decreases |actions|
  {
    if actions == [] then clock else LastClock(actions[1..], ClockAfter(actions[0], clock))
  }

  /** No timer is 2^31 ms away. */
  ghost predicate Near<E>(q: Queue<E>, clock: int)
  {
    forall x :: x in q.slots ==> x.key < clock + 0x8000_0000 && x.entry.timeout < 0x8000_0000
  }

  lemma NearKept<E>(s: State<E>, a: Action<E>, clock: int)
    requires Inv(s) && Works(s, a) && Near(s.queue, clock) && clock <= ClockAfter(a, clock)
    requires a.Add? ==> 0 <= a.timeout < 0x8000_0000
    ensures Near(Step(s, a).queue, ClockAfter(a, clock))
  {
    hide Agree, Insert, Reachable, Erase, Executed, Due;
    var z := Step(s, a);
    match a
    case Add(timeout, event, permanent, now) =>
      forall x | x in z.queue.slots ensures x.key < now + 0x8000_0000 && x.entry.timeout < 0x8000_0000 {
        InInsert(s.queue.slots, Slot(now + timeout, z.queue.ids[z.queue.maxId]), x);
      }
    case Stop(id) =>
      if id in s.queue.ids {
        CancelExactly(s.queue, id);
        forall x | x in z.queue.slots ensures x in s.queue.slots { InErase(s.queue.slots, id, x); }
      }
    case Tick(now) =>
      forall x | x in z.queue.slots ensures x.key < now + 0x8000_0000 && x.entry.timeout < 0x8000_0000 {
        ExecutedSlots(s.queue, now, x);
      }
  }

  lemma {:induction false} NearRun<E>(s: State<E>, actions: seq<Action<E>>, clock: int)
    requires Inv(s) && Near(s.queue, clock) && SaneCalls(actions, clock) && Run(s, actions).Some?
    ensures Inv(Run(s, actions).value) && Near(Run(s, actions).value.queue, LastClock(actions, clock))
    decreases |actions|
  {
    hide Inv, Step, Works, Near;
    if actions != [] {
      StepKeeps(s, actions[0]);
      NearKept(s, actions[0], clock);
      NearRun(Step(s, actions[0]), actions[1..], ClockAfter(actions[0], clock));
    }
  }

  /** So in every such run the poll time is never cut off: it is 100 if every timer is due, and
      otherwise the gap to the first that is not. */
  lemma PollExact<E>(actions: seq<Action<E>>, clock: int, now: int)
    requires SaneCalls(actions, clock) && LastClock(actions, clock) <= now && Run(Init<E>(), actions).Some?
    ensures var q := Run(Init<E>(), actions).value.queue;
            if forall i :: 0 <= i < |q.slots| ==> q.slots[i].key <= now then Timeout(q, now) == 100
            else exists i :: 0 <= i < |q.slots| && q.slots[i].key > now && IsFirst(q, now, i) && Timeout(q, now) == q.slots[i].key - now
  {
    hide Step, Works, Timeout, Agree, IsFirst;
    InitInv<E>();
    NearRun(Init<E>(), actions, clock);
    var q := Run(Init<E>(), actions).value.queue;
    PollUntilFirst(q, now);
    forall i | 0 <= i < |q.slots| ensures q.slots[i].key < now + 0x8000_0000 { assert q.slots[i] in q.slots; }
  }
}
