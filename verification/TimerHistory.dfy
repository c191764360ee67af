/** Runs of the timer queue in terms of the calls alone: what was added, when each timer fires. */
module TimerHistory {
  import opened Wrappers
  import opened Timers
  import opened TimerRuns

  // ---- what was added and cancelled ----

  /** The calls of AddTimer. */
  function Adds<E>(actions: seq<Action<E>>): seq<Action<E>>
    ensures forall k :: 0 <= k < |Adds(actions)| ==> Adds(actions)[k].Add?
  {
    if actions == [] then [] else (if actions[0].Add? then [actions[0]] else []) + Adds(actions[1..])
  }

  /** The timer that this call of AddTimer sets. */
  function EntryOf<E>(a: Action<E>, id: nat): Entry<E>
    requires a.Add?
  {
    Entry(a.timeout, a.now + a.timeout, a.event, id, a.permanent)
  }

  lemma {:induction false} AddedFrom<E>(s: State<E>, actions: seq<Action<E>>)
    requires Inv(s) && Run(s, actions).Some?
    ensures var z, n := Run(s, actions).value, |s.added|;
            && |z.added| == n + |Adds(actions)| && z.added[..n] == s.added
            && forall k :: 0 <= k < |Adds(actions)| ==> z.added[n + k] == EntryOf(Adds(actions)[k], n + k + 1)
    decreases |actions|
  {
    hide Inv, Step, Works;
    if actions != [] {
      var a := actions[0];
      var m := Step(s, a);
      StepKeeps(s, a);
      AddedFrom(m, actions[1..]);
      AddedOne(s, a);
      var z, n := Run(s, actions).value, |s.added|;
      if a.Add? {
        assert z.added[..n] == z.added[..n + 1][..n];
        forall k | 0 <= k < |Adds(actions)| ensures z.added[n + k] == EntryOf(Adds(actions)[k], n + k + 1) {
          if k > 0 {
            assert z.added[n + 1 + (k - 1)] == EntryOf(Adds(actions[1..])[k - 1], n + 1 + (k - 1) + 1);
          } else {
            assert z.added[..n + 1][n] == z.added[n];
          }
        }
      }
    }
  }

  lemma AddedOne<E>(s: State<E>, a: Action<E>)
    requires Inv(s)
    ensures Step(s, a).added == s.added + if a.Add? then [EntryOf(a, |s.added| + 1)] else []
  {
    hide Agree, Conserved, Insert, Executed, Due, Cancel;
  }

  /** CancelTimer was called for what counts as cancelled, and executeTimers ran when something fired. */
  ghost predicate Asked<E>(s: State<E>, actions: seq<Action<E>>)
  {
    && (forall id :: id in s.stopped ==> Stop(id) in actions)
    && (forall k :: 0 <= k < |s.fired| ==> Tick(s.fired[k].at) in actions)
  }

  lemma {:induction false} AskedFrom<E>(s: State<E>, done: seq<Action<E>>, actions: seq<Action<E>>)
    requires Asked(s, done) && Run(s, actions).Some?
    ensures Asked(Run(s, actions).value, done + actions)
    decreases |actions|
  {
    hide Step, Works, Asked;
    if actions == [] {
      assert done + actions == done;
    } else {
      AskedOne(s, done, actions[0]);
      AskedFrom(Step(s, actions[0]), done + [actions[0]], actions[1..]);
      assert (done + [actions[0]]) + actions[1..] == done + actions;
    }
  }

  lemma AskedOne<E>(s: State<E>, done: seq<Action<E>>, a: Action<E>)
    requires Asked(s, done)
    ensures Asked(Step(s, a), done + [a])
  {
    hide Executed, Due, Cancel, Added;
  }

  // ---- when a timer is due ----

  /** When a timer is due next: at its expiry, and once it has fired, `timeout` after the last time. */
  function NextDue<E>(e: Entry<E>, fired: seq<Fired<E>>): int
  {
    if fired == [] then e.expire
    else
      var last := fired[|fired| - 1];
      if last.entry.id == e.id then last.at + e.timeout else NextDue(e, fired[..|fired| - 1])
  }

  lemma {:induction false} NextDueFires<E>(e: Entry<E>, fired: seq<Fired<E>>, due: seq<Slot<E>>, now: int)
    ensures NextDue(e, fired + Fires(due, now))
         == if Find(due, e.id) < |due| then now + e.timeout else NextDue(e, fired)
    decreases |due|
  {
    hide Find;
    FoundIff(due, e.id);
    if due == [] {
      assert fired + Fires(due, now) == fired;
    } else {
      var init := due[..|due| - 1];
      NextDueFires(e, fired, init, now);
      FoundIff(init, e.id);
      var all := fired + Fires(due, now);
      assert all[..|all| - 1] == fired + Fires(init, now);
      assert forall i :: 0 <= i < |init| ==> init[i] == due[i];
    }
  }

  lemma {:induction false} NextDueNever<E>(e: Entry<E>, fired: seq<Fired<E>>)
    requires forall k :: 0 <= k < |fired| ==> fired[k].entry.id != e.id
    ensures NextDue(e, fired) == e.expire
  {
    if fired != [] { NextDueNever(e, fired[..|fired| - 1]); }
  }

  /** Each pending timer stands under the time when it is due next. */
  ghost predicate Keyed<E>(s: State<E>)
  {
    forall x :: x in s.queue.slots ==> x.key == NextDue(x.entry, s.fired)
  }

  lemma InitKeyed<E>()
    ensures Keyed(Init<E>())
  {
  }

  lemma AddKeyed<E>(s: State<E>, a: Action<E>)
    requires Inv(s) && Keyed(s) && a.Add?
    ensures Keyed(Step(s, a))
  {
    hide Agree, Conserved, Insert, NextDue;
    var z := Step(s, a);
    var slot := Slot(a.now + a.timeout, z.queue.ids[z.queue.maxId]);
    NextDueNever(slot.entry, s.fired);
    forall x | x in z.queue.slots ensures x.key == NextDue(x.entry, z.fired) { InInsert(s.queue.slots, slot, x); }
  }

  lemma StopKeyed<E>(s: State<E>, a: Action<E>)
    requires Inv(s) && Keyed(s) && a.Stop? && Works(s, a)
    ensures Keyed(Step(s, a))
  {
    hide Agree, Erase, Times, Reachable, NextDue;
    if a.id in s.queue.ids {
      CancelExactly(s.queue, a.id);
      var z := Step(s, a);
      forall x | x in z.queue.slots ensures x in s.queue.slots { InErase(s.queue.slots, a.id, x); }
    }
  }

  lemma TickKeyed<E>(s: State<E>, now: int)
    requires Inv(s) && Keyed(s)
    ensures Keyed(Step(s, Tick(now)))
  {
    hide Rearm, Dropped, Times, Sorted, Find, NextDue, Executed, Due, Faithful, Conserved;
    var z := Step(s, Tick(now));
    forall x | x in z.queue.slots ensures x.key == NextDue(x.entry, z.fired) {
      ExecutedSlots(s.queue, now, x);
      NextDueFires(x.entry, s.fired, Due(s.queue, now), now);
      if x in s.queue.slots && x.key > now {
        InDue(s.queue, now, x);
      } else {
        var d :| d in s.queue.slots && d.key <= now && d.entry.permanent && x == Slot(now + d.entry.timeout, d.entry);
        InDue(s.queue, now, d);
      }
    }
  }

  /** A pending timer is among those due exactly if its key is not after now. */
  lemma InDue<E>(q: Queue<E>, now: int, x: Slot<E>)
    requires Agree(q) && x in q.slots
    ensures Find(Due(q, now), x.entry.id) < |Due(q, now)| <==> x.key <= now
  {
    hide Find, UpperBound;
    var due := Due(q, now);
    FoundIff(due, x.entry.id);
    var i :| 0 <= i < |q.slots| && q.slots[i] == x;
    DueExactly(q, now, i);
    if i < |due| {
      assert due[i] == x;
    } else {
      forall j | 0 <= j < |due| ensures due[j].entry.id != x.entry.id { assert due[j] == q.slots[j]; }
    }
  }

  lemma {:induction false} RunKeyed<E>(s: State<E>, actions: seq<Action<E>>)
    requires Inv(s) && Keyed(s)
    ensures Run(s, actions).Some? ==> Inv(Run(s, actions).value) && Keyed(Run(s, actions).value)
    decreases |actions|
  {
    hide Inv, Step, Works, Keyed;
    if actions != [] && Works(s, actions[0]) {
      StepKeeps(s, actions[0]);
      match actions[0] {
        case Add(_, _, _, _) => AddKeyed(s, actions[0]);
        case Stop(_) => StopKeyed(s, actions[0]);
        case Tick(now) => TickKeyed(s, now);
      }
      RunKeyed(Step(s, actions[0]), actions[1..]);
    }
  }

  // ---- for every run ----

  /** A timer goes on unless it was cancelled, or is a one-shot that has fired. */
  ghost predicate Pending<E>(s: State<E>, e: Entry<E>)
  {
    e.id !in s.stopped && (e.permanent || Times(s.fired, e.id) == 0)
  }

  /** Each timer is what its call of AddTimer said: the k-th call gets the id k + 1 and the expiry now +
      timeout; only a call of CancelTimer cancels it, and it fires only in a turn of the loop. */
  lemma AsCalled<E>(actions: seq<Action<E>>)
    requires Run(Init<E>(), actions).Some?
    ensures var s := Run(Init<E>(), actions).value;
            && |s.added| == |Adds(actions)|
            && (forall k :: 0 <= k < |s.added| ==>
                  var a := Adds(actions)[k]; s.added[k] == Entry(a.timeout, a.now + a.timeout, a.event, k + 1, a.permanent))
            && (forall id :: id in s.stopped ==> Stop(id) in actions)
            && (forall k :: 0 <= k < |s.fired| ==>
                  var f := s.fired[k]; Tick(f.at) in actions && 1 <= f.entry.id <= |s.added| && f.entry == s.added[f.entry.id - 1])
  {
    hide Step, Works;
    InitInv<E>();
    EveryRun(actions);
    AddedFrom(Init<E>(), actions);
    AskedFrom(Init<E>(), [], actions);
    assert [] + actions == actions;
  }

  /** Exactly when a timer fires: after any run, the turn at `now` fires the timer of the k-th call of
      AddTimer once if it still goes on and is due by then, and otherwise not at all. */
  lemma FiresExactly<E>(actions: seq<Action<E>>, now: int, k: nat)
    requires Run(Init<E>(), actions).Some? && k < |Adds(actions)|
    ensures var s := Run(Init<E>(), actions).value;
            var z := Step(s, Tick(now));
            var a := Adds(actions)[k];
            var e := Entry(a.timeout, a.now + a.timeout, a.event, k + 1, a.permanent);
            Times(z.fired, k + 1) == Times(s.fired, k + 1) + if Pending(s, e) && NextDue(e, s.fired) <= now then 1 else 0
  {
    hide Inv, Works, Times, Pending, NextDue, Step, Keyed;
    InitInv<E>();
    InitKeyed<E>();
    RunKeyed(Init<E>(), actions);
    AsCalled(actions);
    TickFires(Run(Init<E>(), actions).value, now, k);
  }

  lemma TickFires<E>(s: State<E>, now: int, k: nat)
    requires Inv(s) && Keyed(s) && k < |s.added|
    ensures Times(Step(s, Tick(now)).fired, k + 1)
         == Times(s.fired, k + 1) + if Pending(s, s.added[k]) && NextDue(s.added[k], s.fired) <= now then 1 else 0
  {
    hide Times, Find, NextDue, Fires, Due, Agree, Keyed;
    var due, id := Due(s.queue, now), k + 1;
    TimesPlus(s.fired, Fires(due, now), id);
    DueOneEach(s.queue, now);
    TimesDue(due, now, id);
    assert Balanced(s, id);
    KeyOf(s, now, k);
  }

  /** The timers due are the pending ones whose time has come. */
  lemma KeyOf<E>(s: State<E>, now: int, k: nat)
    requires Agree(s.queue) && Faithful(s) && Keyed(s) && k < |s.added|
    ensures var due := Due(s.queue, now);
            Find(due, k + 1) < |due| <==> k + 1 in s.queue.ids && NextDue(s.added[k], s.fired) <= now
  {
    hide Sorted, Find, NextDue, Due;
    var due, id := Due(s.queue, now), k + 1;
    if id in s.queue.ids {
      var i := Find(s.queue.slots, id);
      assert s.queue.slots[i] in s.queue.slots;
      InDue(s.queue, now, s.queue.slots[i]);
    } else if Find(due, id) < |due| {
      var d := due[Find(due, id)];
      assert d in s.queue.slots by { DueIn(s.queue, now, d); }
    }
  }

  lemma DueIn<E>(q: Queue<E>, now: int, d: Slot<E>)
    requires d in Due(q, now)
    ensures d in q.slots
  {
  }

  lemma DueOneEach<E>(q: Queue<E>, now: int)
    requires Agree(q)
    ensures OneEach(Due(q, now))
  {
    hide Sorted, Find;
    PrefixOneEach(q.slots, UpperBound(q.slots, now));
  }

  /** A one-shot never fires before `now + timeout` of its call of AddTimer, and has fired exactly once
      after a turn at or after that time, unless CancelTimer was called for it. */
  lemma OneShot<E>(actions: seq<Action<E>>, now: int, k: nat)
    requires Run(Init<E>(), actions).Some? && k < |Adds(actions)| && !Adds(actions)[k].permanent
    ensures var z := Step(Run(Init<E>(), actions).value, Tick(now));
            var a := Adds(actions)[k];
            && (forall j :: 0 <= j < |z.fired| && z.fired[j].entry.id == k + 1 ==>
                  z.fired[j].at >= a.now + a.timeout && z.fired[j].entry.event == a.event)
            && Times(z.fired, k + 1) <= 1
            && (a.now + a.timeout <= now && Stop(k + 1) !in actions ==> Times(z.fired, k + 1) == 1)
  {
    hide Times, Step, Agree;
    var s := Run(Init<E>(), actions).value;
    AsCalled(actions);
    EveryRun(actions);
    StepKeeps(s, Tick(now));
    OnTime(actions, now, k + 1);
    SizeKept(s, now);
    assert Balanced(Step(s, Tick(now)), k + 1);
  }

  /** Two firings of a timer are at least its timeout apart, and the first is not before its expiry. */
  lemma Spaced<E>(actions: seq<Action<E>>, j: nat)
    requires Run(Init<E>(), actions).Some? && j < |Run(Init<E>(), actions).value.fired|
    ensures var fired := Run(Init<E>(), actions).value.fired; fired[j].at >= NextDue(fired[j].entry, fired[..j])
  {
    hide Inv, Keyed, Step, Works, NextDue;
    InitInv<E>();
    InitKeyed<E>();
    SpacedFrom(Init<E>(), actions, j);
  }

  lemma {:induction false} SpacedFrom<E>(s: State<E>, actions: seq<Action<E>>, j: nat)
    requires Inv(s) && Keyed(s) && Run(s, actions).Some? && |s.fired| <= j < |Run(s, actions).value.fired|
    ensures var fired := Run(s, actions).value.fired; s.fired <= fired && fired[j].at >= NextDue(fired[j].entry, fired[..j])
    decreases |actions|
  {
    hide Inv, Keyed, Step, Works, NextDue;
    var z := Step(s, actions[0]);
    StepKeeps(s, actions[0]);
    RunKeyed(s, [actions[0]]);
    assert [actions[0]][1..] == [] && Run(z, []) == Some(z) && Run(s, [actions[0]]) == Some(z);
    FiredGrows(z, actions[1..]);
    StepSpaced(s, actions[0], j);
    if j < |z.fired| {
      var fired := Run(s, actions).value.fired;
      assert fired[j] == z.fired[j] && fired[..j] == z.fired[..j];
    } else {
      SpacedFrom(z, actions[1..], j);
    }
  }

  lemma {:induction false} FiredGrows<E>(s: State<E>, actions: seq<Action<E>>)
    requires Run(s, actions).Some?
    ensures s.fired <= Run(s, actions).value.fired
    decreases |actions|
  {
    hide Step, Works;
    if actions != [] {
      FiredStep(s, actions[0]);
      FiredGrows(Step(s, actions[0]), actions[1..]);
    }
  }

  lemma FiredStep<E>(s: State<E>, a: Action<E>)
    ensures s.fired <= Step(s, a).fired
    ensures !a.Tick? ==> Step(s, a).fired == s.fired
  {
    hide Executed, Due, Cancel, Added;
  }

  lemma StepSpaced<E>(s: State<E>, a: Action<E>, j: nat)
    requires Inv(s) && Keyed(s)
    ensures var fired := Step(s, a).fired;
            s.fired <= fired && (|s.fired| <= j < |fired| ==> fired[j].at >= NextDue(fired[j].entry, fired[..j]))
  {
    hide NextDue, Executed, Faithful, Conserved, Due, Cancel, Added;
    FiredStep(s, a);
    if a.Tick? && |s.fired| <= j < |Step(s, a).fired| { TickSpaced(s, a.now, j - |s.fired|); }
  }

  lemma TickSpaced<E>(s: State<E>, now: int, i: nat)
    requires Inv(s) && Keyed(s) && i < |Due(s.queue, now)|
    ensures var d, fired := Due(s.queue, now)[i], (s.fired + Fires(Due(s.queue, now), now))[..|s.fired| + i];
            now >= NextDue(d.entry, fired)
  {
    hide NextDue, Faithful, Conserved, Find, UpperBound;
    var due := Due(s.queue, now);
    var d := due[i];
    DueOneEach(s.queue, now);
    DueExactly(s.queue, now, i);
    NextDueFires(d.entry, s.fired, due[..i], now);
    FoundIff(due[..i], d.entry.id);
    assert (s.fired + Fires(due, now))[..|s.fired| + i] == s.fired + Fires(due[..i], now);
    assert d in s.queue.slots;
  }

  // ---- the order of timers with the same key ----

  /** The timers under this key, in iteration order. */
  function Under<E>(ts: seq<Slot<E>>, key: int): seq<Slot<E>>
  {
    if ts == [] then [] else (if ts[0].key == key then [ts[0]] else []) + Under(ts[1..], key)
  }

  /** The permanent ones of the timers due, with their new keys. */
  function Again<E>(due: seq<Slot<E>>, now: int): seq<Slot<E>>
  {
    if due == [] then []
    else (if due[0].entry.permanent then [Slot(now + due[0].entry.timeout, due[0].entry)] else []) + Again(due[1..], now)
  }

  lemma {:induction false} UnderJoin<E>(xs: seq<Slot<E>>, ys: seq<Slot<E>>, key: int)
    ensures Under(xs + ys, key) == Under(xs, key) + Under(ys, key)
  {
    if xs == [] {
      assert xs + ys == ys;
    } else {
      assert (xs + ys)[0] == xs[0] && (xs + ys)[1..] == xs[1..] + ys;
      UnderJoin(xs[1..], ys, key);
    }
  }

  lemma {:induction false} NoneUnder<E>(ts: seq<Slot<E>>, key: int)
    requires forall i :: 0 <= i < |ts| ==> ts[i].key != key
    ensures Under(ts, key) == []
  {
    if ts != [] { NoneUnder(ts[1..], key); }
  }

  lemma UnderInsert<E>(ts: seq<Slot<E>>, s: Slot<E>, key: int)
    requires Sorted(ts)
    ensures Under(Insert(ts, s), key) == Under(ts, key) + Under([s], key)
  {
    hide Under, UpperBound, Sorted;
    var u := UpperBound(ts, s.key);
    Bounds(ts, s.key);
    UnderJoin(ts[..u] + [s], ts[u..], key);
    UnderJoin(ts[..u], [s], key);
    UnderJoin(ts[..u], ts[u..], key);
    assert ts[..u] + ts[u..] == ts;
    if key == s.key { NoneUnder(ts[u..], key); } else { NoneUnder([s], key); }
  }

  lemma {:induction false} UnderRearm<E>(ts: seq<Slot<E>>, due: seq<Slot<E>>, now: int, key: int)
    requires Sorted(ts)
    ensures Under(Rearm(ts, due, now), key) == Under(ts, key) + Under(Again(due, now), key)
    decreases |due|
  {
    hide Sorted, Insert, Under, UpperBound;
    if due == [] {
      assert Under<E>([], key) == [] by { NoneUnder<E>([], key); }
    } else {
      var e := due[0].entry;
      if e.permanent {
        var s := Slot(now + e.timeout, e);
        var more := Again(due[1..], now);
        assert Again(due, now) == [s] + more;
        assert Rearm(ts, due, now) == Rearm(Insert(ts, s), due[1..], now);
        InsertSorted(ts, s);
        UnderInsert(ts, s, key);
        UnderRearm(Insert(ts, s), due[1..], now, key);
        UnderJoin([s], more, key);
      } else {
        UnderRearm(ts, due[1..], now, key);
        assert Again(due, now) == Again(due[1..], now);
      }
    }
  }

  /** After a turn the queue is in order, and under each key those that were not due come first, as
      they stood, and then the permanent ones that fired, in the order in which they fired. */
  lemma ExecutedOrder<E>(q: Queue<E>, now: int, key: int)
    requires Agree(q)
    ensures Sorted(Executed(q, now).slots)
    ensures Under(Executed(q, now).slots, key) == (if key > now then Under(q.slots, key) else []) + Under(Again(Due(q, now), now), key)
  {
    hide Under, Again, UpperBound, Rearm, Dropped, Find;
    var n := UpperBound(q.slots, now);
    Bounds(q.slots, now);
    ExecutedAgrees(q, now);
    SuffixSorted(q.slots, n);
    UnderRearm(q.slots[n..], Due(q, now), now, key);
    UnderJoin(q.slots[..n], q.slots[n..], key);
    assert q.slots[..n] + q.slots[n..] == q.slots;
    if key > now { NoneUnder(q.slots[..n], key); } else { NoneUnder(q.slots[n..], key); }
  }
}
