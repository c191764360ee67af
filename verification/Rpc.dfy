/** src/rpc/rpc_channel.cc and src/rpc/rpc_session.cc as functions on values: what the client and
    the server do with a call, a packet and an answer.  `C` is a request context (controller,
    response object, closure). */
module Rpc {
  import opened Wrappers
  import opened Buffers
  import opened Packets

  datatype Status = Idle | Connecting | Connected | Closed

  /** `methodId` is the hash of the method's full name. */
  datatype Call<C> = Call(methodId: nat, request: seq<Byte>, context: C)

  datatype Client<C> = Client(status: Status, lastGuid: nat, queue: seq<Packet>, contexts: map<nat, C>)

  /** What became of a request context: its closure ran, or it was deleted without running because
      the answer could not be parsed. */
  datatype Finished<C> = Finished(guid: nat, context: C, answer: seq<Byte>, ran: bool)

  function Pushed<C>(c: Client<C>, call: Call<C>): Client<C>
  {
    var guid := c.lastGuid + 1;
    c.(lastGuid := guid, queue := c.queue + [NewPacket(guid, call.methodId, call.request)],
       contexts := c.contexts[guid := call.context])
  }

  /** The channel after CallMethod, and the packets written.  `refused`: connecting failed at once. */
  function Called<C>(c: Client<C>, call: Call<C>, refused: bool): (Client<C>, seq<Packet>)
  {
    match c.status
    case Closed => (c, [])
    case Connected =>
      var guid := c.lastGuid + 1;
      (c.(lastGuid := guid, contexts := c.contexts[guid := call.context]), [NewPacket(guid, call.methodId, call.request)])
    case Idle => (Pushed(c, call).(status := if refused then Closed else Connecting), [])
    case Connecting => (Pushed(c, call), [])
  }

  /** Socket::Out makes the status CONNECTED, and OnConnect(kOK) sends the queue. */
  function Opened<C>(c: Client<C>): (Client<C>, seq<Packet>)
  {
    (c.(status := Connected, queue := []), c.queue)
  }

  /** The body of the loop in RpcChannel::OnRead. */
  function Heard<C>(c: Client<C>, p: Packet, parses: (C, seq<Byte>) -> bool): (Client<C>, Option<Finished<C>>)
  {
    if p.methodId != 0 || p.guid !in c.contexts then (c, None)
    else
      var context := c.contexts[p.guid];
      (c.(contexts := c.contexts - {p.guid}), Some(Finished(p.guid, context, p.content, parses(context, p.content))))
  }

  function HeardAll<C>(c: Client<C>, ps: seq<Packet>, parses: (C, seq<Byte>) -> bool): (Client<C>, seq<Finished<C>>)
    decreases |ps|
  {
    if ps == [] then (c, [])
    else
      var (d, f) := Heard(c, ps[0], parses);
      var (e, rest) := HeardAll(d, ps[1..], parses);
      (e, (if f.Some? then [f.value] else []) + rest)
  }

  /** What OnRead does with the bytes it finds. */
  function Hears<C>(c: Client<C>, p: Parser, input: seq<Byte>, parses: (C, seq<Byte>) -> bool)
    : (Client<C>, seq<Finished<C>>, Parser, seq<Byte>)
    requires !p.state.Done?
  {
    var (q, rest, packets) := Drain(p, input);
    var (d, finished) := HeardAll(c, packets, parses);
    (d, finished, q, rest)
  }

  lemma HearsNext<C>(c: Client<C>, p: Parser, input: seq<Byte>, parses: (C, seq<Byte>) -> bool, before: seq<Finished<C>>)
    requires !p.state.Done?
    ensures var r := Recv(p, input);
            var (e, more, q, rest) := Hears(c, p, input, parses);
            if !r.ok then (e, before + more, q, rest) == (c, before, r.parser, r.rest)
            else
              var (d, f) := Heard(c, r.parser.packet, parses);
              var (e', more', q', rest') := Hears(d, r.parser, r.rest, parses);
              (e, before + more, q, rest) == (e', (before + if f.Some? then [f.value] else []) + more', q', rest')
  {
    hide Recv, Heard;
    var r := Recv(p, input);
    if r.ok {
      RecvProgress(p, input);
      var (q, rest, packets) := Drain(r.parser, r.rest);
      var all := Drain(p, input).2;
      assert all[0] == r.parser.packet && all[1..] == packets;
      var (d, f) := Heard(c, all[0], parses);
      var ran, more := if f.Some? then [f.value] else [], HeardAll(d, packets, parses).1;
      assert before + (ran + more) == (before + ran) + more;
    } else {
      assert before + [] == before;
    }
  }

  /** A request that a service is working on: it holds the closure made of onResponse. */
  datatype Job = Job(guid: nat, methodId: nat, request: seq<Byte>)

  datatype Server<C> = Server(lastGuid: nat, contexts: map<nat, C>, pending: seq<Job>)

  /** The body of the loop in RpcSession::OnRead.  `accepts`: the method is registered and the
      request can be parsed.  A response that cannot be parsed still runs the closure. */
  function Asked<C>(s: Server<C>, p: Packet, accepts: (nat, seq<Byte>) -> bool)
    : (Server<C>, Option<Finished<C>>)
  {
    if p.methodId != 0 then
      (if accepts(p.methodId, p.content) then s.(pending := s.pending + [Job(p.guid, p.methodId, p.content)]) else s, None)
    else if p.guid !in s.contexts then (s, None)
    else
      (s.(contexts := s.contexts - {p.guid}), Some(Finished(p.guid, s.contexts[p.guid], p.content, true)))
  }

  function AskedAll<C>(s: Server<C>, ps: seq<Packet>, accepts: (nat, seq<Byte>) -> bool)
    : (Server<C>, seq<Finished<C>>)
    decreases |ps|
  {
    if ps == [] then (s, [])
    else
      var (d, f) := Asked(s, ps[0], accepts);
      var (e, rest) := AskedAll(d, ps[1..], accepts);
      (e, (if f.Some? then [f.value] else []) + rest)
  }

  /** The jobs that the requests among `ps` give rise to. */
  function JobsIn(ps: seq<Packet>, accepts: (nat, seq<Byte>) -> bool): seq<Job>
  {
    if ps == [] then []
    else
      (if ps[0].methodId != 0 && accepts(ps[0].methodId, ps[0].content)
       then [Job(ps[0].guid, ps[0].methodId, ps[0].content)] else []) + JobsIn(ps[1..], accepts)
  }

  /** The guids of the responses among `ps`. */
  function Responded(ps: seq<Packet>): set<nat>
  {
    set p | p in ps && p.methodId == 0 :: p.guid
  }

  /** The first response to `guid`. */
  predicate FirstResponse(ps: seq<Packet>, guid: nat, answer: seq<Byte>)
  {
    ps != [] &&
    if ps[0].methodId == 0 && ps[0].guid == guid then ps[0].content == answer else FirstResponse(ps[1..], guid, answer)
  }

  /** The contexts of the guids that `ps` responds to go, each finished once, by the first response. */
  ghost predicate Finishes<C>(contexts: map<nat, C>, ps: seq<Packet>, finished: seq<Finished<C>>, rest: map<nat, C>)
  {
    && rest == contexts - Responded(ps)
    && (forall g :: g in contexts && g in Responded(ps) ==> exists f :: f in finished && f.guid == g)
    && (forall f :: f in finished ==>
          f.guid in contexts && f.context == contexts[f.guid] && FirstResponse(ps, f.guid, f.answer))
    && (forall i, j :: 0 <= i < j < |finished| ==> finished[i].guid != finished[j].guid)
  }

  lemma FinishesNext<C>(contexts: map<nat, C>, ps: seq<Packet>, ran: bool, finished: seq<Finished<C>>, rest: map<nat, C>)
    requires ps != []
    requires var p := ps[0];
             Finishes(if p.methodId == 0 then contexts - {p.guid} else contexts, ps[1..], finished, rest)
    ensures var p := ps[0];
            var now := if p.methodId == 0 && p.guid in contexts then [Finished(p.guid, contexts[p.guid], p.content, ran)] else [];
            Finishes(contexts, ps, now + finished, rest)
  {
    var p := ps[0];
    var now := if p.methodId == 0 && p.guid in contexts then [Finished(p.guid, contexts[p.guid], p.content, ran)] else [];
    assert Responded(ps) == Responded(ps[1..]) + if p.methodId == 0 then {p.guid} else {};
    forall g | g in contexts && g in Responded(ps) ensures exists f :: f in now + finished && f.guid == g {
      if p.methodId == 0 && g == p.guid {
        assert now[0] in now + finished;
      } else {
        var f :| f in finished && f.guid == g;
        assert f in now + finished;
      }
    }
  }

  /** Any packets, in any order, at the session: each acceptable request becomes a job, each response
      finishes the context of its guid, if that still waits. */
  lemma {:induction false} SessionTakes<C>(s: Server<C>, ps: seq<Packet>, accepts: (nat, seq<Byte>) -> bool)
    ensures var (z, finished) := AskedAll(s, ps, accepts);
            && z.pending == s.pending + JobsIn(ps, accepts) && z.lastGuid == s.lastGuid
            && Finishes(s.contexts, ps, finished, z.contexts)
            && forall f :: f in finished ==> f.ran
    decreases |ps|
  {
    hide Finishes, Asked, JobsIn;
    if ps == [] {
      assert Finishes(s.contexts, ps, [], s.contexts) by { FinishesNone(s.contexts); }
      assert JobsIn([], accepts) == [] by { NoJobs(accepts); }
    } else {
      JobsNext(ps, accepts);
      var (d, f) := Asked(s, ps[0], accepts);
      SessionTakes(d, ps[1..], accepts);
      var (z, finished) := AskedAll(d, ps[1..], accepts);
      AskedOne(s, ps[0], accepts);
      FinishesNext(s.contexts, ps, true, finished, z.contexts);
    }
  }

  lemma NoJobs(accepts: (nat, seq<Byte>) -> bool)
    ensures JobsIn([], accepts) == []
  {
  }

  lemma JobsNext(ps: seq<Packet>, accepts: (nat, seq<Byte>) -> bool)
    requires ps != []
    ensures JobsIn(ps, accepts) == JobsIn([ps[0]], accepts) + JobsIn(ps[1..], accepts)
  {
  }

  lemma AskedOne<C>(s: Server<C>, p: Packet, accepts: (nat, seq<Byte>) -> bool)
    ensures var (d, f) := Asked(s, p, accepts);
            && d.pending == s.pending + JobsIn([p], accepts) && d.lastGuid == s.lastGuid
            && d.contexts == (if p.methodId == 0 then s.contexts - {p.guid} else s.contexts)
            && f == if p.methodId == 0 && p.guid in s.contexts then Some(Finished(p.guid, s.contexts[p.guid], p.content, true)) else None
  {
  }

  /** Any packets, in any order, at the channel: those with a method id are dropped, each response
      finishes the context of its guid, if that still waits; nothing else changes. */
  lemma {:induction false} ChannelTakes<C>(c: Client<C>, ps: seq<Packet>, parses: (C, seq<Byte>) -> bool)
    ensures var (z, finished) := HeardAll(c, ps, parses);
            && z == c.(contexts := z.contexts)
            && Finishes(c.contexts, ps, finished, z.contexts)
            && forall f :: f in finished ==> f.ran == parses(f.context, f.answer)
    decreases |ps|
  {
    hide Finishes;
    if ps == [] {
      assert Finishes(c.contexts, ps, [], c.contexts) by { FinishesNone(c.contexts); }
    } else {
      var p := ps[0];
      var (d, f) := Heard(c, p, parses);
      ChannelTakes(d, ps[1..], parses);
      var (z, finished) := HeardAll(d, ps[1..], parses);
      assert d.contexts == if p.methodId == 0 then c.contexts - {p.guid} else c.contexts;
      FinishesNext(c.contexts, ps, f.Some? && f.value.ran, finished, z.contexts);
    }
  }

  lemma FinishesNone<C>(contexts: map<nat, C>)
    ensures Finishes(contexts, [], [], contexts)
  {
  }

  /** onResponse for the i-th pending job, which answered `answer`. */
  function Answered<C>(s: Server<C>, i: nat, answer: seq<Byte>): (Server<C>, Packet)
    requires i < |s.pending|
  {
    (s.(pending := s.pending[..i] + s.pending[i + 1..]), NewPacket(s.pending[i].guid, 0, answer))
  }

  /** RpcSession::CallMethod on an open socket. */
  function CalledBack<C>(s: Server<C>, call: Call<C>): (Server<C>, Packet)
  {
    var guid := s.lastGuid + 1;
    (s.(lastGuid := guid, contexts := s.contexts[guid := call.context]), NewPacket(guid, call.methodId, call.request))
  }

  /** What OnRead does with the bytes it finds. */
  function Serves<C>(s: Server<C>, p: Parser, input: seq<Byte>, accepts: (nat, seq<Byte>) -> bool)
    : (Server<C>, seq<Finished<C>>, Parser, seq<Byte>)
    requires !p.state.Done?
  {
    var (q, rest, packets) := Drain(p, input);
    var (t, finished) := AskedAll(s, packets, accepts);
    (t, finished, q, rest)
  }

  lemma ServesNext<C>(s: Server<C>, p: Parser, input: seq<Byte>, accepts: (nat, seq<Byte>) -> bool, before: seq<Finished<C>>)
    requires !p.state.Done?
    ensures var r := Recv(p, input);
            var (e, more, q, rest) := Serves(s, p, input, accepts);
            if !r.ok then (e, before + more, q, rest) == (s, before, r.parser, r.rest)
            else
              var (t, f) := Asked(s, r.parser.packet, accepts);
              var (e', more', q', rest') := Serves(t, r.parser, r.rest, accepts);
              (e, before + more, q, rest) == (e', (before + if f.Some? then [f.value] else []) + more', q', rest')
  {
    hide Recv, Asked;
    var r := Recv(p, input);
    if r.ok {
      RecvProgress(p, input);
      var (q, rest, packets) := Drain(r.parser, r.rest);
      var all := Drain(p, input).2;
      assert all[0] == r.parser.packet && all[1..] == packets;
      var (t, f) := Asked(s, all[0], accepts);
      var ran, more := if f.Some? then [f.value] else [], AskedAll(t, packets, accepts).1;
      assert before + (ran + more) == (before + ran) + more;
    } else {
      assert before + [] == before;
    }
  }
}
