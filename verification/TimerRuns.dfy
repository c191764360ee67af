/** What the timer queue keeps over every run: the two maps agree, and every timer is pending,
    fired when it was due, or cancelled. */
module TimerRuns {
  import opened Timers
  import opened Wrappers

  // ---- membership ----

  lemma InInsert<E>(ts: seq<Slot<E>>, s: Slot<E>, x: Slot<E>)
    ensures x in Insert(ts, s) <==> x in ts || x == s
  {
    var u := UpperBound(ts, s.key);
    assert ts == ts[..u] + ts[u..];
  }

  lemma InsertOneEach<E>(ts: seq<Slot<E>>, s: Slot<E>)
    requires OneEach(ts) && Find(ts, s.entry.id) == |ts|
    ensures OneEach(Insert(ts, s))
  {
    hide Insert, UpperBound, Find;
    var r := Insert(ts, s);
    forall i, j | 0 <= i < j < |r| ensures r[i].entry.id != r[j].entry.id {
      InsertIndex(ts, s, i);
      InsertIndex(ts, s, j);
    }
  }

  lemma InsertIndex<E>(ts: seq<Slot<E>>, s: Slot<E>, i: nat)
    requires i <= |ts|
    ensures var u := UpperBound(ts, s.key); Insert(ts, s)[i] == if i < u then ts[i] else if i == u then s else ts[i - 1]
  {
  }

  // ---- executeTimers ----

  /** Due timers are exactly those whose time has come, in order of expiry. */
  lemma DueExactly<E>(q: Queue<E>, now: int, i: nat)
    requires Agree(q) && i < |q.slots|
    ensures Sorted(Due(q, now)) && Due(q, now) == q.slots[..|Due(q, now)|]
    ensures q.slots[i].key <= now <==> i < |Due(q, now)|
  {
    Bounds(q.slots, now);
  }

  /** A queue in the middle of the second loop: `ts` is in place, `due` has to be dealt with. */
  ghost predicate Midway<E>(ts: seq<Slot<E>>, ids: map<nat, Entry<E>>, due: seq<Slot<E>>, maxId: nat)
  {
    && Sorted(ts) && OneEach(ts) && OneEach(due)
    && (forall i :: 0 <= i < |ts| ==> ts[i].entry.id in ids && ids[ts[i].entry.id] == ts[i].entry)
    && (forall i :: 0 <= i < |due| ==> due[i].entry.id in ids && ids[due[i].entry.id] == due[i].entry)
    && (forall i :: 0 <= i < |due| ==> Find(ts, due[i].entry.id) == |ts|)
    && (forall id :: id in ids ==> 1 <= id <= maxId && (Find(ts, id) < |ts| || Find(due, id) < |due|))
  }

  lemma MidwayStart<E>(q: Queue<E>, n: nat)
    requires Agree(q) && n <= |q.slots|
    ensures Midway(q.slots[n..], q.ids, q.slots[..n], q.maxId)
  {
    hide Find;
    var ts, due := q.slots[n..], q.slots[..n];
    forall i | 0 <= i < |due| ensures Find(ts, due[i].entry.id) == |ts| { FoundIff(ts, due[i].entry.id); }
    forall id | id in q.ids ensures Find(ts, id) < |ts| || Find(due, id) < |due| {
      var p := Find(q.slots, id);
      FoundIff(ts, id);
      FoundIff(due, id);
      if p < n { assert due[p].entry.id == id; } else { assert ts[p - n].entry.id == id; }
    }
  }

  /** A one-shot is forgotten. */
  lemma MidwayDrop<E>(ts: seq<Slot<E>>, ids: map<nat, Entry<E>>, due: seq<Slot<E>>, maxId: nat)
    requires Midway(ts, ids, due, maxId) && due != []
    ensures Midway(ts, ids - {due[0].entry.id}, due[1..], maxId)
  {
    hide Sorted, Find;
    var id0 := due[0].entry.id;
    RestFinds(due);
    forall i | 0 <= i < |ts| ensures ts[i].entry.id != id0 { FoundIff(ts, id0); }
    forall i | 0 <= i < |due| - 1 ensures due[1..][i] == due[i + 1] {}
  }

  lemma RestFinds<E>(due: seq<Slot<E>>)
    requires due != []
    ensures forall id :: id != due[0].entry.id && Find(due, id) < |due| ==> Find(due[1..], id) < |due[1..]|
  {
  }

  /** A permanent timer is put in again. */
  lemma MidwayRearm<E>(ts: seq<Slot<E>>, ids: map<nat, Entry<E>>, due: seq<Slot<E>>, maxId: nat, key: int)
    requires Midway(ts, ids, due, maxId) && due != []
    ensures Midway(Insert(ts, Slot(key, due[0].entry)), ids, due[1..], maxId)
  {
    hide Sorted, Find, Insert, UpperBound;
    var s := Slot(key, due[0].entry);
    var r := Insert(ts, s);
    InsertSorted(ts, s);
    InsertOneEach(ts, s);
    RestFinds(due);
    forall i | 0 <= i < |r| ensures r[i].entry.id in ids && ids[r[i].entry.id] == r[i].entry { InsertIndex(ts, s, i); }
    forall i | 0 <= i < |due| - 1 ensures due[1..][i] == due[i + 1] && Find(r, due[i + 1].entry.id) == |r| {
      FindInsert(ts, s, due[i + 1].entry.id);
    }
    forall id | id in ids ensures Find(r, id) < |r| || Find(due[1..], id) < |due[1..]| {
      if Find(ts, id) < |ts| { ThereInsert(ts, s, id); }
      if id == s.entry.id { InsertIndex(ts, s, UpperBound(ts, s.key)); FoundIff(r, id); }
    }
  }

  lemma MidwayEnd<E>(ts: seq<Slot<E>>, ids: map<nat, Entry<E>>, maxId: nat)
    requires Midway(ts, ids, [], maxId)
    ensures Agree(Queue(ts, ids, maxId))
  {
  }

  lemma {:induction false} RearmAgrees<E>(ts: seq<Slot<E>>, ids: map<nat, Entry<E>>, due: seq<Slot<E>>, maxId: nat, now: int)
    requires Midway(ts, ids, due, maxId)
    ensures Agree(Queue(Rearm(ts, due, now), Dropped(ids, due), maxId))
    decreases |due|
  {
    hide Midway, Agree, Insert;
    if due == [] {
      MidwayEnd(ts, ids, maxId);
    } else {
      var e := due[0].entry;
      if e.permanent {
        MidwayRearm(ts, ids, due, maxId, now + e.timeout);
        RearmAgrees(Insert(ts, Slot(now + e.timeout, e)), ids, due[1..], maxId, now);
      } else {
        MidwayDrop(ts, ids, due, maxId);
        RearmAgrees(ts, ids - {e.id}, due[1..], maxId, now);
      }
    }
  }

  lemma ExecutedAgrees<E>(q: Queue<E>, now: int)
    requires Agree(q)
    ensures Agree(Executed(q, now))
  {
    hide Agree, Midway, Rearm, Dropped;
    MidwayStart(q, UpperBound(q.slots, now));
    RearmAgrees(q.slots[UpperBound(q.slots, now)..], q.ids, Due(q, now), q.maxId, now);
  }

  /** After executeTimers: the timers that were not due, and the permanent ones that were, the
      latter at now + timeout. */
  lemma ExecutedSlots<E>(q: Queue<E>, now: int, x: Slot<E>)
    requires Agree(q)
    ensures x in Executed(q, now).slots <==>
              (x in q.slots && x.key > now) || (exists d :: d in q.slots && d.key <= now && d.entry.permanent && x == Slot(now + d.entry.timeout, d.entry))
  {
    hide Rearm, Dropped;
    var n := UpperBound(q.slots, now);
    Bounds(q.slots, now);
    RearmSlots(q.slots[n..], q.slots[..n], now, x);
    assert forall d :: d in q.slots && d.key <= now <==> d in q.slots[..n];
    assert forall d :: d in q.slots && d.key > now <==> d in q.slots[n..];
  }

  lemma {:induction false} RearmSlots<E>(ts: seq<Slot<E>>, due: seq<Slot<E>>, now: int, x: Slot<E>)
    ensures x in Rearm(ts, due, now) <==>
              x in ts || exists d :: d in due && d.entry.permanent && x == Slot(now + d.entry.timeout, d.entry)
    decreases |due|
  {
    hide Insert;
    if due != [] {
      var e := due[0].entry;
      var s := Slot(now + e.timeout, e);
      if e.permanent {
        InInsert(ts, s, x);
        RearmSlots(Insert(ts, s), due[1..], now, x);
      } else {
        RearmSlots(ts, due[1..], now, x);
      }
      assert due == [due[0]] + due[1..];
    }
  }

  lemma {:induction false} DroppedIds<E>(ids: map<nat, Entry<E>>, due: seq<Slot<E>>, id: nat)
    ensures id in Dropped(ids, due) <==>
              id in ids && forall i :: 0 <= i < |due| ==> due[i].entry.permanent || due[i].entry.id != id
    ensures id in Dropped(ids, due) ==> Dropped(ids, due)[id] == ids[id]
    decreases |due|
  {
    if due != [] {
      DroppedIds(if due[0].entry.permanent then ids else ids - {due[0].entry.id}, due[1..], id);
      assert forall i :: 0 < i < |due| ==> due[i] == due[1..][i - 1];
    }
  }

  /** The poll lasts 100 ms if every timer is due, and otherwise until the first that is not, exactly
      if that is less than 2^31 ms away, so that the cast to int keeps it. */
  lemma PollUntilFirst<E>(q: Queue<E>, now: int)
    requires Agree(q)
    ensures (forall i :: 0 <= i < |q.slots| ==> q.slots[i].key <= now) ==> Timeout(q, now) == 100
    ensures (exists i :: 0 <= i < |q.slots| && q.slots[i].key > now) ==>
              exists i :: 0 <= i < |q.slots| && q.slots[i].key > now && IsFirst(q, now, i)
                          && (Timeout(q, now) == q.slots[i].key - now <==> q.slots[i].key - now < 0x8000_0000)
  {
    hide Agree, Narrow, UpperBound, IsFirst;
    FirstNotDue(q, now);
    var n := UpperBound(q.slots, now);
    if n < |q.slots| {
      NarrowSmall(q.slots[n].key - now);
      assert IsFirst(q, now, n);
    } else {
      forall i | 0 <= i < |q.slots| ensures q.slots[i].key <= now {}
    }
  }

  /** No timer that is not due comes before the i-th. */
  ghost predicate IsFirst<E>(q: Queue<E>, now: int, i: nat)
    requires i < |q.slots|
  {
    forall j :: 0 <= j < |q.slots| && q.slots[j].key > now ==> q.slots[i].key <= q.slots[j].key
  }

  lemma FirstNotDue<E>(q: Queue<E>, now: int)
    requires Agree(q)
    ensures var n := UpperBound(q.slots, now);
            && (n < |q.slots| ==> q.slots[n].key > now)
            && (n < |q.slots| ==> IsFirst(q, now, n))
            && forall i :: 0 <= i < |q.slots| && q.slots[i].key > now ==> n <= i
  {
    hide Find, OneEach, UpperBound;
    Bounds(q.slots, now);
  }

  lemma NarrowSmall(x: int)
    requires x > 0
    ensures Narrow(x) == x <==> x < 0x8000_0000
  {
  }

  // ---- AddTimer and CancelTimer ----

  lemma AddedAgrees<E>(q: Queue<E>, timeout: int, event: E, permanent: bool, now: int)
    requires Agree(q)
    ensures Agree(Added(q, timeout, event, permanent, now))
  {
    hide Sorted, Find, Insert, UpperBound;
    var z := Added(q, timeout, event, permanent, now);
    var id := z.maxId;
    var s := Slot(now + timeout, z.ids[id]);
    FoundIff(q.slots, id);
    InsertSorted(q.slots, s);
    InsertOneEach(q.slots, s);
    forall i | 0 <= i < |z.slots| ensures z.slots[i].entry.id in z.ids && z.ids[z.slots[i].entry.id] == z.slots[i].entry {
      InsertIndex(q.slots, s, i);
    }
    forall k | k in z.ids ensures 1 <= k <= z.maxId && Find(z.slots, k) < |z.slots| {
      if k == id { InsertIndex(q.slots, s, UpperBound(q.slots, s.key)); FoundIff(z.slots, id); } else { ThereInsert(q.slots, s, k); }
    }
  }

  /** Of the timers before it, none has a later key than the expiry its entry remembers. */
  ghost predicate Reachable<E>(q: Queue<E>, id: nat)
    requires id in q.ids
  {
    var k := Find(q.slots, id);
    k < |q.slots| && q.slots[k].key >= q.ids[id].expire && forall j :: 0 <= j < k ==> q.slots[j].key <= q.ids[id].expire
  }

  lemma {:induction false} CancelStops<E>(ts: seq<Slot<E>>, ids: map<nat, Entry<E>>, id: nat, first: nat, last: nat)
    requires first <= last <= |ts| && forall i :: 0 <= i < |ts| ==> Live(ids, ts[i])
    ensures var p := CancelPos(ts, ids, id, first, last);
            (p < last ==> ts[p].entry.id == id) && forall i :: first <= i < p ==> ts[i].entry.id != id
    decreases last - first
  {
    if first < last && ts[first].entry.id != id { CancelStops(ts, ids, id, first + 1, last); }
  }

  /** The search of CancelTimer ends at the timer itself exactly if it is reachable. */
  lemma CancelFinds<E>(q: Queue<E>, id: nat)
    requires Agree(q) && id in q.ids
    ensures var expire := q.ids[id].expire;
            var first, last := LowerBound(q.slots, expire), UpperBound(q.slots, expire);
            && first <= last
            && (CancelPos(q.slots, q.ids, id, first, last) == Find(q.slots, id) <==> Reachable(q, id))
            && forall i :: 0 <= i < |q.slots| ==> Live(q.ids, q.slots[i])
  {
    var expire := q.ids[id].expire;
    var first, last := LowerBound(q.slots, expire), UpperBound(q.slots, expire);
    Bounds(q.slots, expire);
    CancelStops(q.slots, q.ids, id, first, last);
    var p, k := CancelPos(q.slots, q.ids, id, first, last), Find(q.slots, id);
    if Reachable(q, id) {
      assert k >= first && k <= last;
    }
  }

  /** CancelTimer takes out the timer with its id and no other exactly if it is reachable: in
      particular whenever its key still is entry->expire. */
  lemma CancelExactly<E>(q: Queue<E>, id: nat)
    requires Agree(q) && id in q.ids
    ensures Reachable(q, id) <==> Cancel(q, id) == Done(Queue(Erase(q.slots, id), q.ids - {id}, q.maxId))
    ensures q.slots[Find(q.slots, id)].key == q.ids[id].expire ==> Reachable(q, id)
  {
    hide CancelPos, LowerBound, UpperBound, Erase, EraseAt, Find, Live;
    CancelFinds(q, id);
    var pos := CancelPos(q.slots, q.ids, id, LowerBound(q.slots, q.ids[id].expire), UpperBound(q.slots, q.ids[id].expire));
    if pos < |q.slots| { OnlyErase(q.slots, id, pos); }
    FoundSlot(q, id);
  }

  /** Otherwise the call is undefined, or it leaves two maps that do not agree: the id is gone, and
      the slot that points to the deleted entry is not. */
  lemma CancelBreaks<E>(q: Queue<E>, id: nat)
    requires Agree(q) && id in q.ids && !Reachable(q, id)
    ensures Cancel(q, id).Undefined? || !Agree(Cancel(q, id).queue)
  {
    hide CancelPos, LowerBound, UpperBound, Find, Sorted;
    CancelFinds(q, id);
    var pos := CancelPos(q.slots, q.ids, id, LowerBound(q.slots, q.ids[id].expire), UpperBound(q.slots, q.ids[id].expire));
    if pos < |q.slots| {
      var k := Find(q.slots, id);
      assert EraseAt(q.slots, pos)[if k < pos then k else k - 1] == q.slots[k];
    }
  }

  lemma CancelOutcome<E>(q: Queue<E>, id: nat)
    requires Agree(q)
    ensures var c := Cancel(q, id);
            c.Done? && Agree(c.queue) && id !in c.queue.ids <==> id !in q.ids || Reachable(q, id)
  {
    hide Agree, Reachable, CancelPos, LowerBound, UpperBound, Find, Erase, EraseAt;
    if id in q.ids {
      CancelExactly(q, id);
      if Reachable(q, id) { ErasedAgrees(q, id); } else { CancelBreaks(q, id); }
    }
  }

  lemma FoundSlot<E>(q: Queue<E>, id: nat)
    requires Agree(q) && id in q.ids
    ensures q.slots[Find(q.slots, id)].key == q.ids[id].expire ==> Reachable(q, id)
  {
  }

  lemma OnlyErase<E>(ts: seq<Slot<E>>, id: nat, pos: nat)
    requires OneEach(ts) && Find(ts, id) < |ts| && pos < |ts|
    ensures EraseAt(ts, pos) == Erase(ts, id) <==> pos == Find(ts, id)
  {
    var k := Find(ts, id);
    if pos != k {
      assert EraseAt(ts, pos)[if k < pos then k else k - 1].entry.id == id;
      FoundIff(EraseAt(ts, pos), id);
      ErasedGone(ts, id);
    }
  }

  lemma ErasedGone<E>(ts: seq<Slot<E>>, id: nat)
    requires OneEach(ts)
    ensures Find(Erase(ts, id), id) == |Erase(ts, id)|
  {
    FoundIff(Erase(ts, id), id);
  }

  lemma ErasedAgrees<E>(q: Queue<E>, id: nat)
    requires Agree(q) && id in q.ids
    ensures Agree(Queue(Erase(q.slots, id), q.ids - {id}, q.maxId))
  {
    hide Sorted, Find, Erase;
    var ts := Erase(q.slots, id);
    EraseSorted(q.slots, id);
    ErasedGone(q.slots, id);
    FoundIff(ts, id);
    forall k | k in q.ids && k != id ensures Find(ts, k) < |ts| { StillThere(q.slots, id, k); }
    forall i | 0 <= i < |ts|
      ensures ts[i].entry.id in q.ids && ts[i].entry.id != id && q.ids[ts[i].entry.id] == ts[i].entry
    {
      EraseIndex(q.slots, id, i);
    }
    forall i, j | 0 <= i < j < |ts| ensures ts[i].entry.id != ts[j].entry.id {
      EraseIndex(q.slots, id, i);
      EraseIndex(q.slots, id, j);
    }
  }

  /** A permanent timer that was re-armed, with a one-shot before it that is later than the entry
      says: CancelTimer takes out the one-shot's slot and leaves its own. */
  lemma CancelWrong<E>(event: E)
    ensures var q := Added(Executed(Added(Queue([], map[], 0), 10, event, true, 0), 12), 5, event, false, 12);
            && q.ids.Keys == {1, 2} && |q.slots| == 2 && q.slots[0].entry.id == 2 && q.slots[1].entry.id == 1
            && Cancel(q, 1) == Done(Queue([q.slots[1]], q.ids - {1}, 2))
  {
    var a := Added(Queue([], map[], 0), 10, event, true, 0);
    var e := Entry(10, 10, event, 1, true);
    assert a == Queue([Slot(10, e)], map[1 := e], 1);
    var b := Executed(a, 12);
    assert UpperBound(a.slots, 12) == 1 && Due(a, 12) == [Slot(10, e)];
    assert Due(a, 12)[1..] == [] && a.slots[1..] == [];
    assert Insert([], Slot(22, e)) == [Slot(22, e)];
    assert Rearm([], Due(a, 12), 12) == [Slot(22, e)];
    assert Dropped(a.ids, Due(a, 12)) == a.ids by { assert Dropped(a.ids, Due(a, 12)[1..]) == a.ids; }
    assert b == Queue([Slot(22, e)], map[1 := e], 1);
    var q := Added(b, 5, event, false, 12);
    var f := Entry(5, 17, event, 2, false);
    assert UpperBound(b.slots, 17) == 0;
    assert q == Queue([Slot(17, f), Slot(22, e)], map[1 := e, 2 := f], 2);
    assert LowerBound(q.slots, 10) == 0 && UpperBound(q.slots, 10) == 0;
  }

  // ---- queues after a CancelTimer that missed ----

  lemma AgreeProper<E>(q: Queue<E>, now: int)
    requires Agree(q)
    ensures Proper(q) && !DueDead(q, now)
  {
  }

  lemma AddedProper<E>(q: Queue<E>, timeout: int, event: E, permanent: bool, now: int)
    requires Proper(q)
    ensures Proper(Added(q, timeout, event, permanent, now))
  {
    hide Sorted, OneEach, Find, Insert, UpperBound;
    var z := Added(q, timeout, event, permanent, now);
    var s := Slot(now + timeout, z.ids[z.maxId]);
    FoundIff(q.slots, z.maxId);
    InsertSorted(q.slots, s);
    InsertOneEach(q.slots, s);
    forall i | 0 <= i < |z.slots| ensures z.slots[i].entry.id <= z.maxId { InsertIndex(q.slots, s, i); }
  }

  lemma CancelProper<E>(q: Queue<E>, id: nat)
    requires Proper(q) && Cancel(q, id).Done?
    ensures Proper(Cancel(q, id).queue)
  {
    hide CancelPos, LowerBound, UpperBound, Live;
  }

  lemma {:induction false} RearmProper<E>(ts: seq<Slot<E>>, ids: map<nat, Entry<E>>, due: seq<Slot<E>>, maxId: nat, now: int)
    requires Proper(Queue(ts, ids, maxId)) && OneEach(due)
    requires forall i :: 0 <= i < |due| ==> due[i].entry.id <= maxId && Find(ts, due[i].entry.id) == |ts|
    ensures Proper(Queue(Rearm(ts, due, now), Dropped(ids, due), maxId))
    decreases |due|
  {
    hide Sorted, Find, Insert, UpperBound;
    if due != [] {
      var e := due[0].entry;
      forall i | 0 <= i < |due| - 1 ensures due[1..][i] == due[i + 1] {}
      if e.permanent {
        var s := Slot(now + e.timeout, e);
        var r := Insert(ts, s);
        InsertSorted(ts, s);
        InsertOneEach(ts, s);
        forall i | 0 <= i < |r| ensures r[i].entry.id <= maxId { InsertIndex(ts, s, i); }
        forall i | 0 <= i < |due| - 1 ensures Find(r, due[1..][i].entry.id) == |r| {
          assert due[1..][i] == due[i + 1];
          FindInsert(ts, s, due[i + 1].entry.id);
        }
        RearmProper(r, ids, due[1..], maxId, now);
      } else {
        RearmProper(ts, ids - {e.id}, due[1..], maxId, now);
      }
    }
  }

  lemma ExecutedProper<E>(q: Queue<E>, now: int)
    requires Proper(q)
    ensures Proper(Executed(q, now))
  {
    hide Sorted, Find, UpperBound, Rearm, Dropped;
    var n := UpperBound(q.slots, now);
    var ts, due := q.slots[n..], q.slots[..n];
    SuffixSorted(q.slots, n);
    forall i | 0 <= i < |due| ensures Find(ts, due[i].entry.id) == |ts| { FoundIff(ts, due[i].entry.id); }
    RearmProper(ts, q.ids, due, q.maxId, now);
  }

  lemma SuffixSorted<E>(ts: seq<Slot<E>>, n: nat)
    requires Sorted(ts) && n <= |ts|
    ensures Sorted(ts[n..])
  {
  }

  // ---- runs ----

  datatype Fired<E> = Fired(entry: Entry<E>, at: int)

  /** The queue, and what happened: the timers added, fired and cancelled. */
  datatype State<E> = State(queue: Queue<E>, added: seq<Entry<E>>, fired: seq<Fired<E>>, stopped: seq<nat>)

  datatype Action<E> = Add(timeout: int, event: E, permanent: bool, now: int) | Stop(id: nat) | Tick(now: int)

  function Init<E>(): State<E> { State(Queue([], map[], 0), [], [], []) }

  function Fires<E>(due: seq<Slot<E>>, now: int): seq<Fired<E>>
  {
    seq(|due|, i requires 0 <= i < |due| => Fired(due[i].entry, now))
  }

  /** CancelTimer finds the timer it is called for, if that is still there. */
  ghost predicate Works<E>(s: State<E>, a: Action<E>)
  {
    a.Stop? && a.id in s.queue.ids ==> Reachable(s.queue, a.id)
  }

  ghost function Step<E>(s: State<E>, a: Action<E>): State<E>
  {
    match a
    case Add(timeout, event, permanent, now) =>
      var q := Added(s.queue, timeout, event, permanent, now);
      s.(queue := q, added := s.added + [q.ids[q.maxId]])
    case Stop(id) =>
      (match Cancel(s.queue, id)
       case Undefined => s
       case Done(q) => s.(queue := q, stopped := if id in s.queue.ids then s.stopped + [id] else s.stopped))
    case Tick(now) => s.(queue := Executed(s.queue, now), fired := s.fired + Fires(Due(s.queue, now), now))
  }

  /** The state after some calls; `None` once a CancelTimer has missed its timer. */
  ghost function Run<E>(s: State<E>, actions: seq<Action<E>>): Option<State<E>>
    decreases |actions|
  {
    if actions == [] then Some(s)
    else if !Works(s, actions[0]) then None
    else Run(Step(s, actions[0]), actions[1..])
  }

  function Times<E>(fired: seq<Fired<E>>, id: nat): nat
  {
    if fired == [] then 0 else Times(fired[1..], id) + if fired[0].entry.id == id then 1 else 0
  }

  lemma {:induction false} TimesPlus<E>(xs: seq<Fired<E>>, ys: seq<Fired<E>>, id: nat)
    ensures Times(xs + ys, id) == Times(xs, id) + Times(ys, id)
  {
    if xs == [] {
      assert xs + ys == ys;
    } else {
      TimesPlus(xs[1..], ys, id);
      assert (xs + ys)[1..] == xs[1..] + ys;
    }
  }

  lemma {:induction false} TimesDue<E>(due: seq<Slot<E>>, now: int, id: nat)
    requires OneEach(due)
    ensures Times(Fires(due, now), id) == if Find(due, id) < |due| then 1 else 0
  {
    if due != [] {
      TimesDue(due[1..], now, id);
      assert Fires(due, now)[1..] == Fires(due[1..], now);
      if due[0].entry.id == id { FoundIff(due[1..], id); }
    }
  }

  /** The histories and the queue speak of the same timers; a one-shot's key is its expiry, and it
      is never fired before that. */
  ghost predicate Faithful<E>(s: State<E>)
  {
    && |s.added| == s.queue.maxId
    && (forall i :: 0 <= i < |s.added| ==> s.added[i].id == i + 1)
    && (forall id :: id in s.queue.ids ==> 1 <= id <= |s.added| && s.queue.ids[id] == s.added[id - 1])
    && (forall x :: x in s.queue.slots && !x.entry.permanent ==> x.key == x.entry.expire)
    && (forall k :: 0 <= k < |s.fired| ==>
          var e := s.fired[k].entry;
          1 <= e.id <= |s.added| && e == s.added[e.id - 1] && (e.permanent || e.expire <= s.fired[k].at))
  }

  /** A one-shot is pending, fired or cancelled, and only one of them, once; a permanent timer is
      pending or cancelled. */
  ghost predicate Conserved<E>(s: State<E>)
  {
    && (forall id :: id in s.stopped ==> 1 <= id <= |s.added|)
    && forall id :: 1 <= id <= |s.added| ==> Balanced(s, id)
  }

  ghost predicate Balanced<E>(s: State<E>, id: nat)
    requires 1 <= id <= |s.added|
  {
    var pending := if id in s.queue.ids then 1 else 0;
    pending + multiset(s.stopped)[id] + (if s.added[id - 1].permanent then 0 else Times(s.fired, id)) == 1
  }

  ghost predicate Inv<E>(s: State<E>)
  {
    Agree(s.queue) && Faithful(s) && Conserved(s)
  }

  lemma AddKeeps<E>(s: State<E>, a: Action<E>)
    requires Inv(s) && a.Add?
    ensures Inv(Step(s, a))
  {
    hide Agree, Insert, Times;
    AddedAgrees(s.queue, a.timeout, a.event, a.permanent, a.now);
    var z := Step(s, a);
    var id := z.queue.maxId;
    NewId(s);
    assert Faithful(z) by { AddFaithful(s, a); }
    forall k | 1 <= k <= |z.added| ensures Balanced(z, k) {
      if k < id { assert Balanced(s, k) && z.added[k - 1] == s.added[k - 1]; }
    }
  }

  lemma AddFaithful<E>(s: State<E>, a: Action<E>)
    requires Faithful(s) && a.Add?
    ensures Faithful(Step(s, a))
  {
    hide Insert;
    var z := Step(s, a);
    var slot := Slot(a.now + a.timeout, z.queue.ids[z.queue.maxId]);
    forall x | x in z.queue.slots && !x.entry.permanent ensures x.key == x.entry.expire { InInsert(s.queue.slots, slot, x); }
  }

  /** The next id has no history yet. */
  lemma NewId<E>(s: State<E>)
    requires Inv(s)
    ensures var id := s.queue.maxId + 1; id !in s.queue.ids && id !in s.stopped && Times(s.fired, id) == 0
  {
    hide Times;
    var id := s.queue.maxId + 1;
    NeverFired(s.fired, id);
  }

  lemma {:induction false} NeverFired<E>(fired: seq<Fired<E>>, id: nat)
    requires forall k :: 0 <= k < |fired| ==> fired[k].entry.id != id
    ensures Times(fired, id) == 0
  {
    if fired != [] { NeverFired(fired[1..], id); }
  }

  lemma StopKeeps<E>(s: State<E>, a: Action<E>)
    requires Inv(s) && a.Stop? && Works(s, a)
    ensures Inv(Step(s, a))
  {
    hide Agree, Erase, Times, Reachable;
    if a.id in s.queue.ids {
      CancelExactly(s.queue, a.id);
      ErasedAgrees(s.queue, a.id);
      var z := Step(s, a);
      forall x | x in z.queue.slots ensures x in s.queue.slots { InErase(s.queue.slots, a.id, x); }
      forall k | 1 <= k <= |z.added| ensures Balanced(z, k) { assert Balanced(s, k); }
    }
  }

  lemma InErase<E>(ts: seq<Slot<E>>, id: nat, x: Slot<E>)
    requires x in Erase(ts, id)
    ensures x in ts
  {
  }

  lemma TickFaithful<E>(s: State<E>, now: int)
    requires Agree(s.queue) && Faithful(s)
    ensures Faithful(Step(s, Tick(now)))
  {
    hide Rearm, Dropped, Find, OneEach, Sorted;
    var z := Step(s, Tick(now));
    var due := Due(s.queue, now);
    forall x | x in z.queue.slots && !x.entry.permanent ensures x.key == x.entry.expire { ExecutedSlots(s.queue, now, x); }
    forall id | id in z.queue.ids ensures id in s.queue.ids && z.queue.ids[id] == s.queue.ids[id] { DroppedIds(s.queue.ids, due, id); }
    forall k | 0 <= k < |z.fired|
      ensures var e := z.fired[k].entry;
              1 <= e.id <= |z.added| && e == z.added[e.id - 1] && (e.permanent || e.expire <= z.fired[k].at)
    {
      if k >= |s.fired| {
        var i := k - |s.fired|;
        assert z.fired[k] == Fired(s.queue.slots[i].entry, now);
        DueExactly(s.queue, now, i);
        assert s.queue.slots[i] in s.queue.slots;
      }
    }
  }

  lemma PrefixOneEach<E>(ts: seq<Slot<E>>, n: nat)
    requires OneEach(ts) && n <= |ts|
    ensures OneEach(ts[..n])
  {
  }

  lemma TickConserved<E>(s: State<E>, now: int, id: nat)
    requires Inv(s) && 1 <= id <= |s.added|
    ensures var z := Step(s, Tick(now));
            && (if s.added[id - 1].permanent then id in z.queue.ids <==> id in s.queue.ids
                else (if id in z.queue.ids then 1 else 0) + Times(z.fired, id) == (if id in s.queue.ids then 1 else 0) + Times(s.fired, id))
  {
    hide Rearm, Dropped, Times, Sorted, OneEach, Find, UpperBound, Fires;
    var due := Due(s.queue, now);
    DroppedIds(s.queue.ids, due, id);
    TimesPlus(s.fired, Fires(due, now), id);
    PrefixOneEach(s.queue.slots, UpperBound(s.queue.slots, now));
    TimesDue(due, now, id);
    FoundIff(due, id);
    forall i | 0 <= i < |due| ensures due[i] == s.queue.slots[i] {}
  }

  lemma TickKeeps<E>(s: State<E>, now: int)
    requires Inv(s)
    ensures Inv(Step(s, Tick(now)))
  {
    hide Agree, Times, Executed, Due, Fires, Faithful;
    ExecutedAgrees(s.queue, now);
    TickFaithful(s, now);
    SizeKept(s, now);
    forall id | 1 <= id <= |s.added| ensures Balanced(Step(s, Tick(now)), id) {
      TickConserved(s, now, id);
      assert Balanced(s, id);
    }
  }

  lemma SizeKept<E>(s: State<E>, now: int)
    ensures Step(s, Tick(now)).added == s.added && Step(s, Tick(now)).stopped == s.stopped
  {
  }

  lemma StepKeeps<E>(s: State<E>, a: Action<E>)
    requires Inv(s) && Works(s, a)
    ensures Inv(Step(s, a))
  {
    hide Inv, Step, Works;
    match a {
      case Add(_, _, _, _) => AddKeeps(s, a);
      case Stop(_) => StopKeeps(s, a);
      case Tick(now) => TickKeeps(s, now);
    }
  }

  lemma {:induction false} RunKeeps<E>(s: State<E>, actions: seq<Action<E>>)
    requires Inv(s)
    ensures Run(s, actions).Some? ==> Inv(Run(s, actions).value)
    decreases |actions|
  {
    hide Inv, Step, Works;
    if actions != [] && Works(s, actions[0]) {
      StepKeeps(s, actions[0]);
      RunKeeps(Step(s, actions[0]), actions[1..]);
    }
  }

  /** In every run, as long as CancelTimer finds its timers, the two maps hold the same timers; each
      one-shot is pending, fired once or cancelled once, and is not fired before its time. */
  lemma EveryRun<E>(actions: seq<Action<E>>)
    ensures Run(Init<E>(), actions).Some? ==> Inv(Run(Init<E>(), actions).value)
  {
    hide Step, Works;
    RunKeeps(Init<E>(), actions);
  }

  /** And a run leaves this path only by a CancelTimer call that is undefined or makes the two maps
      disagree, on a timer that has a later key before it than its entry remembers. */
  lemma OnlyCancelBreaks<E>(actions: seq<Action<E>>) returns (k: nat)
    requires Run(Init<E>(), actions).None?
    ensures k < |actions| && Run(Init<E>(), actions[..k]).Some? && actions[k].Stop?
    ensures var q := Run(Init<E>(), actions[..k]).value.queue; var id := actions[k].id;
            && Agree(q) && id in q.ids && !Reachable(q, id)
            && (Cancel(q, id).Undefined? || !Agree(Cancel(q, id).queue))
  {
    hide Step, Reachable;
    InitInv<E>();
    k := FirstMiss(Init<E>(), actions);
    var q := Run(Init<E>(), actions[..k]).value.queue;
    CancelBreaks(q, actions[k].id);
  }

  lemma InitInv<E>()
    ensures Inv(Init<E>())
  {
  }

  lemma {:induction false} FirstMiss<E>(s: State<E>, actions: seq<Action<E>>) returns (k: nat)
    requires Inv(s) && Run(s, actions).None?
    ensures k < |actions| && Run(s, actions[..k]).Some? && !Works(Run(s, actions[..k]).value, actions[k])
    ensures Inv(Run(s, actions[..k]).value)
    decreases |actions|
  {
    hide Inv, Step, Works;
    if !Works(s, actions[0]) {
      k := 0;
    } else {
      StepKeeps(s, actions[0]);
      var j := FirstMiss(Step(s, actions[0]), actions[1..]);
      k := j + 1;
      assert actions[..k][0] == actions[0] && actions[..k][1..] == actions[1..][..j];
    }
  }

  /** After a turn of the loop at `now`, every one-shot due by then has fired once, unless it was
      cancelled. */
  lemma OnTime<E>(actions: seq<Action<E>>, now: int, id: nat)
    requires Run(Init<E>(), actions).Some?
    ensures var z := Step(Run(Init<E>(), actions).value, Tick(now));
            1 <= id <= |z.added| && !z.added[id - 1].permanent && z.added[id - 1].expire <= now && id !in z.stopped
            ==> Times(z.fired, id) == 1
  {
    hide Works, Times, Inv;
    var s := Run(Init<E>(), actions).value;
    EveryRun(actions);
    TickKeeps(s, now);
    NonePending(s, now, id);
  }

  lemma NonePending<E>(s: State<E>, now: int, id: nat)
    requires Inv(s) && Inv(Step(s, Tick(now)))
    ensures var z := Step(s, Tick(now));
            1 <= id <= |z.added| && !z.added[id - 1].permanent && z.added[id - 1].expire <= now && id !in z.stopped ==> Times(z.fired, id) == 1
  {
    hide Rearm, Dropped, Times, Sorted;
    var z := Step(s, Tick(now));
    if 1 <= id <= |z.added| { assert Balanced(z, id); }
    if 1 <= id <= |z.added| && !z.added[id - 1].permanent && z.added[id - 1].expire <= now && id in s.queue.ids {
      var i := Find(s.queue.slots, id);
      assert s.queue.slots[i] in s.queue.slots;
      DueExactly(s.queue, now, i);
      DroppedIds(s.queue.ids, Due(s.queue, now), id);
      assert Due(s.queue, now)[i] == s.queue.slots[i];
    }
    DroppedIds(s.queue.ids, Due(s.queue, now), id);
  }
}
