/** The timer queue of src/core/poller.cc: a multimap from expiry to timer and a map from id to
    timer.  The clock is a parameter; callbacks do not touch the queue. */
module Timers {
  const DEFAULT_TIMEOUT: int := 100

  /** A TimerEntry: none of its fields changes after AddTimer. */
  datatype Entry<E> = Entry(timeout: int, expire: int, event: E, id: nat, permanent: bool)

  datatype Slot<E> = Slot(key: int, entry: Entry<E>)

  /** timers_ in iteration order, timer_ids_ and max_timer_id_. */
  datatype Queue<E> = Queue(slots: seq<Slot<E>>, ids: map<nat, Entry<E>>, maxId: nat)

  // ---- the multimap ----

  ghost predicate Sorted<E>(ts: seq<Slot<E>>)
  {
    forall i, j :: 0 <= i < j < |ts| ==> ts[i].key <= ts[j].key
  }

  /** The first position with a key above `key`. */
  function UpperBound<E>(ts: seq<Slot<E>>, key: int): (u: nat)
    ensures u <= |ts|
  {
    if ts == [] || key < ts[0].key then 0 else 1 + UpperBound(ts[1..], key)
  }

  /** The first position with a key not below `key`. */
  function LowerBound<E>(ts: seq<Slot<E>>, key: int): (u: nat)
    ensures u <= |ts|
  {
    if ts == [] || key <= ts[0].key then 0 else 1 + LowerBound(ts[1..], key)
  }

  lemma {:induction false} Bounds<E>(ts: seq<Slot<E>>, key: int)
    requires Sorted(ts)
    ensures forall i :: 0 <= i < |ts| ==> (i < UpperBound(ts, key) <==> ts[i].key <= key)
    ensures forall i :: 0 <= i < |ts| ==> (i < LowerBound(ts, key) <==> ts[i].key < key)
    ensures LowerBound(ts, key) <= UpperBound(ts, key)
  {
    if ts != [] {
      Bounds(ts[1..], key);
      forall i | 0 < i < |ts| ensures ts[i] == ts[1..][i - 1] {}
    }
  }

  /** A new element goes behind those with the same key. */
  function Insert<E>(ts: seq<Slot<E>>, s: Slot<E>): (r: seq<Slot<E>>)
    ensures |r| == |ts| + 1
  {
    var u := UpperBound(ts, s.key);
    ts[..u] + [s] + ts[u..]
  }

  function EraseAt<E>(ts: seq<Slot<E>>, i: nat): (r: seq<Slot<E>>)
    requires i < |ts|
    ensures |r| == |ts| - 1
  {
    ts[..i] + ts[i + 1..]
  }

  /** The position of the timer with this id, or the end. */
  function Find<E>(ts: seq<Slot<E>>, id: nat): (p: nat)
    ensures p <= |ts| && (p < |ts| ==> ts[p].entry.id == id)
    ensures forall i :: 0 <= i < p ==> ts[i].entry.id != id
  {
    if ts == [] || ts[0].entry.id == id then 0 else 1 + Find(ts[1..], id)
  }

  lemma BoundUnique<E>(ts: seq<Slot<E>>, key: int, u: nat)
    requires Sorted(ts) && u <= |ts|
    requires forall i :: 0 <= i < |ts| ==> (i < u <==> ts[i].key <= key)
    ensures UpperBound(ts, key) == u
  {
    Bounds(ts, key);
    var v := UpperBound(ts, key);
    if v < |ts| { assert v < u <==> ts[v].key <= key; }
    if u < |ts| { assert u < v <==> ts[u].key <= key; }
  }

  lemma FindUnique<E>(ts: seq<Slot<E>>, id: nat, p: nat)
    requires p <= |ts| && (p < |ts| ==> ts[p].entry.id == id)
    requires forall i :: 0 <= i < p ==> ts[i].entry.id != id
    ensures Find(ts, id) == p
  {
  }

  /** Without the timer with this id. */
  function Erase<E>(ts: seq<Slot<E>>, id: nat): seq<Slot<E>>
  {
    var p := Find(ts, id);
    if p < |ts| then EraseAt(ts, p) else ts
  }

  lemma EraseSorted<E>(ts: seq<Slot<E>>, id: nat)
    requires Sorted(ts)
    ensures Sorted(Erase(ts, id))
  {
  }

  lemma InsertSorted<E>(ts: seq<Slot<E>>, s: Slot<E>)
    requires Sorted(ts)
    ensures Sorted(Insert(ts, s))
  {
    Bounds(ts, s.key);
  }

  lemma FindInsert<E>(ts: seq<Slot<E>>, s: Slot<E>, id: nat)
    requires s.entry.id != id
    ensures var p, u := Find(ts, id), UpperBound(ts, s.key); Find(Insert(ts, s), id) == if p < u then p else p + 1
  {
    var p, u := Find(ts, id), UpperBound(ts, s.key);
    FindUnique(Insert(ts, s), id, if p < u then p else p + 1);
  }

  lemma BoundErase<E>(ts: seq<Slot<E>>, key: int, id: nat)
    requires Sorted(ts)
    ensures var p, u := Find(ts, id), UpperBound(ts, key); UpperBound(Erase(ts, id), key) == if p < u then u - 1 else u
  {
    var p, u := Find(ts, id), UpperBound(ts, key);
    Bounds(ts, key);
    EraseSorted(ts, id);
    BoundUnique(Erase(ts, id), key, if p < u then u - 1 else u);
  }

  /** Erasing one element and inserting another can be exchanged. */
  lemma EraseInsert<E>(ts: seq<Slot<E>>, s: Slot<E>, id: nat)
    requires Sorted(ts) && s.entry.id != id
    ensures Erase(Insert(ts, s), id) == Insert(Erase(ts, id), s)
  {
    hide UpperBound, Find, Sorted;
    FindInsert(ts, s, id);
    BoundErase(ts, s.key, id);
    var p, u := Find(ts, id), UpperBound(ts, s.key);
    if p < |ts| { Exchange(ts, p, u, s); }
  }

  lemma Exchange<X>(xs: seq<X>, p: nat, u: nat, x: X)
    requires p < |xs| && u <= |xs|
    ensures var ys := xs[..u] + [x] + xs[u..];
            var zs := xs[..p] + xs[p + 1..];
            if p < u then ys[..p] + ys[p + 1..] == zs[..u - 1] + [x] + zs[u - 1..]
            else ys[..p + 1] + ys[p + 2..] == zs[..u] + [x] + zs[u..]
  {
  }

  function EraseAll<E>(ts: seq<Slot<E>>, gone: seq<Slot<E>>): seq<Slot<E>>
    decreases |gone|
  {
    if gone == [] then ts else EraseAll(Erase(ts, gone[0].entry.id), gone[1..])
  }

  lemma {:induction false} EraseAllInsert<E>(ts: seq<Slot<E>>, s: Slot<E>, gone: seq<Slot<E>>)
    requires Sorted(ts) && forall i :: 0 <= i < |gone| ==> gone[i].entry.id != s.entry.id
    ensures EraseAll(Insert(ts, s), gone) == Insert(EraseAll(ts, gone), s)
    decreases |gone|
  {
    hide Insert, Erase, Sorted;
    if gone != [] {
      EraseInsert(ts, s, gone[0].entry.id);
      EraseSorted(ts, gone[0].entry.id);
      EraseAllInsert(Erase(ts, gone[0].entry.id), s, gone[1..]);
    }
  }

  lemma FoundIff<E>(ts: seq<Slot<E>>, id: nat)
    ensures Find(ts, id) < |ts| <==> exists i :: 0 <= i < |ts| && ts[i].entry.id == id
  {
  }

  lemma EraseIndex<E>(ts: seq<Slot<E>>, id: nat, i: nat)
    requires Find(ts, id) < |ts| && i < |Erase(ts, id)|
    ensures |Erase(ts, id)| == |ts| - 1
    ensures Erase(ts, id)[i] == ts[if i < Find(ts, id) then i else i + 1]
  {
  }

  lemma StillThere<E>(ts: seq<Slot<E>>, id: nat, other: nat)
    requires id != other && Find(ts, other) < |ts|
    ensures Find(Erase(ts, id), other) < |Erase(ts, id)|
  {
    hide Erase, Find;
    var p, q := Find(ts, id), Find(ts, other);
    if p < |ts| {
      var w := if p < q then q - 1 else q;
      EraseSize(ts, id);
      EraseIndex(ts, id, w);
      FoundIff(Erase(ts, id), other);
    } else {
      EraseNone(ts, id);
    }
  }

  lemma EraseSize<E>(ts: seq<Slot<E>>, id: nat)
    requires Find(ts, id) < |ts|
    ensures |Erase(ts, id)| == |ts| - 1
  {
  }

  lemma EraseNone<E>(ts: seq<Slot<E>>, id: nat)
    requires Find(ts, id) == |ts|
    ensures Erase(ts, id) == ts
  {
  }

  lemma ThereInsert<E>(ts: seq<Slot<E>>, s: Slot<E>, id: nat)
    requires Find(ts, id) < |ts|
    ensures Find(Insert(ts, s), id) < |Insert(ts, s)|
  {
    var p, u := Find(ts, id), UpperBound(ts, s.key);
    assert Insert(ts, s)[if p < u then p else p + 1] == ts[p];
  }

  lemma EraseHead<E>(ts: seq<Slot<E>>)
    requires ts != []
    ensures Erase(ts, ts[0].entry.id) == ts[1..]
  {
    FindUnique(ts, ts[0].entry.id, 0);
  }

  lemma {:induction false} EraseAllFirst<E>(ts: seq<Slot<E>>, n: nat)
    requires n <= |ts|
    ensures EraseAll(ts, ts[..n]) == ts[n..]
    decreases n
  {
    hide Erase;
    if n > 0 {
      EraseHead(ts);
      assert ts[..n][1..] == ts[1..][..n - 1];
      EraseAllFirst(ts[1..], n - 1);
    }
  }

  // ---- the two maps agree ----

  ghost predicate OneEach<E>(ts: seq<Slot<E>>)
  {
    forall i, j :: 0 <= i < j < |ts| ==> ts[i].entry.id != ts[j].entry.id
  }

  /** Both maps hold the same timers, each once. */
  ghost predicate Agree<E>(q: Queue<E>)
  {
    && Sorted(q.slots) && OneEach(q.slots)
    && (forall i :: 0 <= i < |q.slots| ==> q.slots[i].entry.id in q.ids && q.ids[q.slots[i].entry.id] == q.slots[i].entry)
    && (forall id :: id in q.ids ==> 1 <= id <= q.maxId && Find(q.slots, id) < |q.slots|)
  }

  // ---- the operations ----

  function Added<E>(q: Queue<E>, timeout: int, event: E, permanent: bool, now: int): Queue<E>
  {
    var id := q.maxId + 1;
    var entry := Entry(timeout, now + timeout, event, id, permanent);
    Queue(Insert(q.slots, Slot(now + timeout, entry)), q.ids[id := entry], id)
  }

  /** A TimerEntry is deleted exactly when its id leaves timer_ids_, so this slot's pointer is good. */
  predicate Live<E>(ids: map<nat, Entry<E>>, s: Slot<E>)
  {
    s.entry.id in ids
  }

  /** Where the loop of CancelTimer stops: at the id, at a pointer to a deleted entry, or at the end. */
  function CancelPos<E>(ts: seq<Slot<E>>, ids: map<nat, Entry<E>>, id: nat, first: nat, last: nat): (p: nat)
    requires first <= last <= |ts|
    ensures first <= p <= last
    decreases last - first
  {
    if first == last || !Live(ids, ts[first]) || ts[first].entry.id == id then first
    else CancelPos(ts, ids, id, first + 1, last)
  }

  datatype Cancelled<E> = Undefined | Done(queue: Queue<E>)

  /** `Undefined`: reading a deleted entry, or timers_.erase(timers_.end()). */
  function Cancel<E>(q: Queue<E>, id: nat): Cancelled<E>
  {
    if id !in q.ids then Done(q)
    else
      var expire := q.ids[id].expire;
      var first, last := LowerBound(q.slots, expire), UpperBound(q.slots, expire);
      var pos := if first <= last then CancelPos(q.slots, q.ids, id, first, last) else last;
      if pos == |q.slots| || (pos < last && !Live(q.ids, q.slots[pos])) then Undefined
      else Done(Queue(EraseAt(q.slots, pos), q.ids - {id}, q.maxId))
  }

  /** static_cast<int> of an unsigned 64-bit number. */
  function Narrow(x: int): int
  {
    var low := x % 0x1_0000_0000;
    if low < 0x8000_0000 then low else low - 0x1_0000_0000
  }

  /** The timers that are due, put back in order: the permanent ones, at now + timeout. */
  function Rearm<E>(ts: seq<Slot<E>>, due: seq<Slot<E>>, now: int): seq<Slot<E>>
    decreases |due|
  {
    if due == [] then ts
    else
      var e := due[0].entry;
      Rearm(if e.permanent then Insert(ts, Slot(now + e.timeout, e)) else ts, due[1..], now)
  }

  function Dropped<E>(ids: map<nat, Entry<E>>, due: seq<Slot<E>>): map<nat, Entry<E>>
    decreases |due|
  {
    if due == [] then ids
    else Dropped(if due[0].entry.permanent then ids else ids - {due[0].entry.id}, due[1..])
  }

  function Due<E>(q: Queue<E>, now: int): seq<Slot<E>>
  {
    q.slots[..UpperBound(q.slots, now)]
  }

  function Executed<E>(q: Queue<E>, now: int): Queue<E>
  {
    var n := UpperBound(q.slots, now);
    Queue(Rearm(q.slots[n..], Due(q, now), now), Dropped(q.ids, Due(q, now)), q.maxId)
  }

  function Timeout<E>(q: Queue<E>, now: int): int
  {
    var n := UpperBound(q.slots, now);
    if n == |q.slots| then DEFAULT_TIMEOUT else Narrow(q.slots[n].key - now)
  }

  /** Some timer that is due points to a deleted entry: executeTimers would read it. */
  predicate DueDead<E>(q: Queue<E>, now: int)
  {
    exists i :: 0 <= i < UpperBound(q.slots, now) && !Live(q.ids, q.slots[i])
  }

  /** What the multimap and the ids are like after any calls, whatever CancelTimer did: in order,
      no entry in two slots, no id that was never given out. */
  ghost predicate Proper<E>(q: Queue<E>)
  {
    && Sorted(q.slots) && OneEach(q.slots)
    && (forall i :: 0 <= i < |q.slots| ==> q.slots[i].entry.id <= q.maxId)
  }

  function Events<E>(ts: seq<Slot<E>>): seq<E>
  {
    seq(|ts|, i requires 0 <= i < |ts| => ts[i].entry.event)
  }

  // ---- the second loop of executeTimers ----

  lemma AllTaken<E>(ts: seq<Slot<E>>, ids: map<nat, Entry<E>>, now: int)
    ensures Rearm(EraseAll(ts, []), [], now) == ts && Rearm(ts, [], now) == ts && Dropped(ids, []) == ids
  {
  }

  lemma DropOne<E>(ids: map<nat, Entry<E>>, gone: seq<Slot<E>>)
    requires gone != []
    ensures Dropped(ids, gone) == Dropped(if gone[0].entry.permanent then ids else ids - {gone[0].entry.id}, gone[1..])
  {
  }

  lemma NoneDue<E>(q: Queue<E>, now: int)
    requires q.slots == []
    ensures Due(q, now) == [] && Timeout(q, now) == DEFAULT_TIMEOUT && Events(Due(q, now)) == [] && !DueDead(q, now)
  {
  }

  lemma Present<E>(ts: seq<Slot<E>>, n: nat)
    requires n <= |ts| && OneEach(ts)
    ensures OneEach(ts[..n]) && forall i :: 0 <= i < n ==> Find(ts, ts[..n][i].entry.id) < |ts|
  {
  }

  lemma TakeOneRearm<E>(ts: seq<Slot<E>>, gone: seq<Slot<E>>, now: int)
    requires gone != []
    ensures var e := gone[0].entry;
            var left := EraseAll(Erase(ts, e.id), gone[1..]);
            Rearm(EraseAll(ts, gone), gone, now)
              == Rearm(if e.permanent then Insert(left, Slot(now + e.timeout, e)) else left, gone[1..], now)
  {
  }

  /** One pass of the second loop. */
  lemma TakeOne<E>(ts: seq<Slot<E>>, gone: seq<Slot<E>>, now: int)
    requires Sorted(ts) && gone != [] && forall k :: 0 < k < |gone| ==> gone[k].entry.id != gone[0].entry.id
    requires forall k :: 0 <= k < |gone| ==> Find(ts, gone[k].entry.id) < |ts|
    ensures var e := gone[0].entry;
            var erased := EraseAt(ts, Find(ts, e.id));
            var next := if e.permanent then Insert(erased, Slot(now + e.timeout, e)) else erased;
            && Sorted(next)
            && Rearm(EraseAll(next, gone[1..]), gone[1..], now) == Rearm(EraseAll(ts, gone), gone, now)
            && forall k :: 0 < k < |gone| ==> Find(next, gone[k].entry.id) < |next|
  {
    hide Sorted, Find, UpperBound, Insert, EraseAll, Rearm;
    var e := gone[0].entry;
    var erased := Erase(ts, e.id);
    TakeOneRearm(ts, gone, now);
    EraseSorted(ts, e.id);
    forall k | 0 < k < |gone| ensures Find(erased, gone[k].entry.id) < |erased| { StillThere(ts, e.id, gone[k].entry.id); }
    if e.permanent {
      var again := Slot(now + e.timeout, e);
      EraseAllInsert(erased, again, gone[1..]);
      InsertSorted(erased, again);
      forall k | 0 < k < |gone| ensures Find(Insert(erased, again), gone[k].entry.id) < |Insert(erased, again)| {
        ThereInsert(erased, again, gone[k].entry.id);
      }
    }
  }
}
