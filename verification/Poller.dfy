/** Poller of src/core/poller.cc: AddTimer, CancelTimer and executeTimers as they are written. */
module Pollers {
  import opened Timers
  import opened TimerRuns

  /** `r` is `ts` with `s` as well, behind all keys that are not above its own and before all that are. */
  ghost predicate PutIn<E>(ts: seq<Slot<E>>, s: Slot<E>, r: seq<Slot<E>>)
  {
    && |r| == |ts| + 1
    && exists u :: 0 <= u < |r| && r[u] == s && r[..u] == ts[..u] && r[u + 1..] == ts[u..]
                   && (forall i :: 0 <= i < u ==> ts[i].key <= s.key) && forall i :: u <= i < |ts| ==> s.key < ts[i].key
  }

  lemma Inserted<E>(q: Queue<E>, s: Slot<E>)
    requires Proper(q)
    ensures PutIn(q.slots, s, Insert(q.slots, s))
  {
    hide Sorted, UpperBound;
    var ts := q.slots;
    Bounds(ts, s.key);
    var u, r := UpperBound(ts, s.key), Insert(ts, s);
    assert r[u] == s && r[..u] == ts[..u] && r[u + 1..] == ts[u..];
  }

  /** `fired` are the events of the first timers of `ts`, which are those with keys up to `now`. */
  ghost predicate FiresDue<E>(ts: seq<Slot<E>>, now: int, fired: seq<E>)
  {
    && |fired| <= |ts|
    && (forall i :: 0 <= i < |ts| ==> (i < |fired| <==> ts[i].key <= now))
    && forall i :: 0 <= i < |fired| ==> fired[i] == ts[i].entry.event
  }

  /** The runs of TimerRuns record the same firings. */
  lemma RecordedAs<E>(q: Queue<E>, now: int, fired: seq<E>)
    requires Sorted(q.slots) && FiresDue(q.slots, now, fired)
    ensures |Fires(Due(q, now), now)| == |fired|
    ensures forall i :: 0 <= i < |fired| ==> Fires(Due(q, now), now)[i] == Fired(q.slots[i].entry, now) && q.slots[i].entry.event == fired[i]
  {
    hide Sorted;
    BoundUnique(q.slots, now, |fired|);
  }

  class Poller<E> {
    var timers: seq<Slot<E>>
    var timerIds: map<nat, Entry<E>>
    var maxTimerId: nat
    var nowMs: int

    ghost function Model(): Queue<E>
      reads this
    {
      Queue(timers, timerIds, maxTimerId)
    }

    constructor ()
      ensures Model() == Queue([], map[], 0)
    {
      timers, timerIds, maxTimerId, nowMs := [], map[], 0, 0;
    }

    method AddTimer(timeout: int, event: E, permanent: bool, currentMs: int) returns (id: nat)
      modifies this
      ensures Model() == Added(old(Model()), timeout, event, permanent, currentMs)
      ensures id == maxTimerId == old(maxTimerId) + 1 && nowMs == old(nowMs)
      ensures timerIds == old(timerIds)[id := Entry(timeout, currentMs + timeout, event, id, permanent)]
      ensures old(Proper(Model())) ==> PutIn(old(timers), Slot(currentMs + timeout, timerIds[id]), timers)
      ensures old(Agree(Model())) ==> Agree(Model())
      ensures old(Proper(Model())) ==> Proper(Model())
    {
      hide Agree, Insert, Proper, PutIn;
      if Proper(Model()) {
        AddedProper(Model(), timeout, event, permanent, currentMs);
        Inserted(Model(), Slot(currentMs + timeout, Entry(timeout, currentMs + timeout, event, maxTimerId + 1, permanent)));
      }
      if Agree(Model()) { AddedAgrees(Model(), timeout, event, permanent, currentMs); }
      var expire := currentMs + timeout;
      maxTimerId := maxTimerId + 1;
      id := maxTimerId;
      var entry := Entry(timeout, expire, event, id, permanent);
      timers := Insert(timers, Slot(expire, entry));
      timerIds := timerIds[id := entry];
    }

    /** For a queue that executeTimers and AddTimer left behind, the maps go on agreeing, and the timer
        is gone from both, exactly if it was reachable. */
    method CancelTimer(id: nat) returns (undefined: bool)
      requires Proper(Model())
      modifies this
      ensures Proper(Model())
      ensures Cancel(old(Model()), id) == if undefined then Undefined else Done(Model())
      ensures nowMs == old(nowMs)
      ensures old(Agree(Model())) ==>
                (!undefined && Agree(Model()) && id !in timerIds <==> old(id !in timerIds || Reachable(Model(), id)))
    {
      hide UpperBound, LowerBound, Find, OneEach, Sorted, Agree, Reachable;
      if Cancel(Model(), id).Done? { CancelProper(Model(), id); }
      if Agree(Model()) { CancelOutcome(Model(), id); }
      if id !in timerIds {
        return false;
      }
      var expire := timerIds[id].expire;
      Bounds(timers, expire);
      var pos := LowerBound(timers, expire);
      while pos != UpperBound(timers, expire)
        invariant LowerBound(timers, expire) <= pos <= UpperBound(timers, expire)
        invariant CancelPos(timers, timerIds, id, pos, UpperBound(timers, expire))
               == CancelPos(timers, timerIds, id, LowerBound(timers, expire), UpperBound(timers, expire))
        decreases UpperBound(timers, expire) - pos
      {
        if !Live(timerIds, timers[pos]) {
          return true;
        }
        if timers[pos].entry.id == id {
          break;
        }
        pos := pos + 1;
      }
      if pos == |timers| {
        return true;
      }
      timers := EraseAt(timers, pos);
      timerIds := timerIds - {id};
      undefined := false;
    }

    /** Fires what is due, then takes it out or puts it in again; the answer is how long to poll.
        Undefined if a timer that is due points to a deleted entry, which maps that agree exclude. */
    method ExecuteTimers() returns (undefined: bool, res: int, fired: seq<E>)
      requires Proper(Model())
      modifies this
      ensures undefined <==> DueDead(old(Model()), nowMs)
      ensures nowMs == old(nowMs) && Proper(Model())
      ensures !undefined ==>
                && Model() == Executed(old(Model()), nowMs)
                && fired == Events(Due(old(Model()), nowMs)) && res == Timeout(old(Model()), nowMs)
      ensures !undefined ==>
                && FiresDue(old(timers), nowMs, fired)
                && res == if |fired| == |old(timers)| then 100 else Narrow(old(timers)[|fired|].key - nowMs)
      ensures old(Agree(Model())) ==> !undefined && Agree(Model())
    {
      hide Sorted, Find, Rearm, Dropped, EraseAll, Narrow, UpperBound, Events, OneEach, Agree, DueDead;
      if Agree(Model()) {
        ExecutedAgrees(Model(), nowMs);
        AgreeProper(Model(), nowMs);
      }
      ExecutedProper(Model(), nowMs);
      if timers == [] {
        AllTaken(timers, timerIds, nowMs);
        NoneDue(Model(), nowMs);
        return false, DEFAULT_TIMEOUT, [];
      }
      var delTimers;
      undefined, res, fired, delTimers := FireDue();
      if undefined {
        return;
      }
      EraseAllFirst(timers, UpperBound(timers, nowMs));
      Present(timers, UpperBound(timers, nowMs));
      TakeOut(delTimers);
    }

    /** The first loop of executeTimers. */
    method FireDue() returns (undefined: bool, res: int, fired: seq<E>, delTimers: seq<Slot<E>>)
      requires Sorted(timers)
      ensures undefined <==> DueDead(Model(), nowMs)
      ensures !undefined ==>
                && delTimers == timers[..UpperBound(timers, nowMs)] && fired == Events(delTimers)
                && res == Timeout(Model(), nowMs)
      ensures !undefined ==>
                && FiresDue(timers, nowMs, fired)
                && res == if |fired| == |timers| then 100 else Narrow(timers[|fired|].key - nowMs)
    {
      hide Sorted, Narrow, UpperBound;
      fired := [];
      res := DEFAULT_TIMEOUT;
      undefined := false;
      var iter := 0;
      delTimers := [];
      Bounds(timers, nowMs);
      while iter != |timers|
        invariant iter <= UpperBound(timers, nowMs) && res == DEFAULT_TIMEOUT
        invariant delTimers == timers[..iter] && fired == Events(delTimers)
        invariant forall i :: 0 <= i < iter ==> Live(timerIds, timers[i])
        decreases |timers| - iter
      {
        if timers[iter].key > nowMs {
          res := Narrow(timers[iter].key - nowMs);
          break;
        }
        if !Live(timerIds, timers[iter]) {
          undefined := true;
          return;
        }
        fired := fired + [timers[iter].entry.event];
        delTimers := delTimers + [timers[iter]];
        iter := iter + 1;
      }
      assert iter == UpperBound(timers, nowMs);
    }

    /** The second loop of executeTimers. */
    method TakeOut(delTimers: seq<Slot<E>>)
      requires Sorted(timers) && OneEach(delTimers)
      requires forall i :: 0 <= i < |delTimers| ==> Find(timers, delTimers[i].entry.id) < |timers|
      modifies `timers, `timerIds
      ensures timers == Rearm(EraseAll(old(timers), delTimers), delTimers, nowMs)
      ensures timerIds == Dropped(old(timerIds), delTimers)
    {
      hide Sorted, Find, UpperBound, Insert, Erase, EraseAt, Rearm, EraseAll, Dropped;
      var i := 0;
      assert delTimers[0..] == delTimers;
      while i < |delTimers|
        invariant i <= |delTimers| && Sorted(timers)
        invariant forall k :: i <= k < |delTimers| ==> Find(timers, delTimers[k].entry.id) < |timers|
        invariant Rearm(EraseAll(timers, delTimers[i..]), delTimers[i..], nowMs)
               == Rearm(EraseAll(old(timers), delTimers), delTimers, nowMs)
        invariant Dropped(timerIds, delTimers[i..]) == Dropped(old(timerIds), delTimers)
      {
        var entry := delTimers[i].entry;
        var tmp := Find(timers, entry.id);
        ghost var gone := delTimers[i..];
        assert gone[1..] == delTimers[i + 1..] && forall k :: 0 < k < |gone| ==> gone[k].entry.id != entry.id;
        TakeOne(timers, gone, nowMs);
        DropOne(timerIds, gone);
        timers := EraseAt(timers, tmp);
        if !entry.permanent {
          timerIds := timerIds - {entry.id};
        } else {
          timers := Insert(timers, Slot(nowMs + entry.timeout, entry));
        }
        assert forall k :: i + 1 <= k < |delTimers| ==> delTimers[k] == gone[k - i];
        i := i + 1;
      }
      assert delTimers[i..] == [];
      AllTaken(timers, timerIds, nowMs);
    }
  }
}
