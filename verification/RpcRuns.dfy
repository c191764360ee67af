/** What the callers on both sides see over a whole run of the two ends: which of their calls and
    answers were taken, what of them is on the wire, and that every open run can be completed. */
module RpcRuns {
  import opened Wrappers
  import opened Buffers
  import opened Packets
  import opened Rpc
  import opened RpcSystem

  // ---- histories, from the actions alone ----

  /** The call that `a` makes through the channel: none on a closed one. */
  function CallIn<C>(s: System<C>, a: Action<C>): seq<Call<C>>
  {
    match a
    case ClientCall(call, _) => if Sendable(call, s.client.lastGuid) && !s.client.status.Closed? then [call] else []
    case _ => []
  }

  /** The call that `a` makes through the session. */
  function CallBackIn<C>(s: System<C>, a: Action<C>): seq<Call<C>>
  {
    match a
    case ServerCall(call) => if Sendable(call, s.server.lastGuid) && s.client.status.Connected? then [call] else []
    case _ => []
  }

  /** The answer that `a` gives, with the job it is for. */
  function AnswerIn<C>(s: System<C>, a: Action<C>): seq<Served>
  {
    match a
    case Answer(i, answer) =>
      if i < |s.server.pending| && |answer| < Pow256(4) then [Served(s.server.pending[i], answer)] else []
    case _ => []
  }

  function After<C>(s: System<C>, a: Action<C>, codec: Codec<C>): System<C>
  {
    if Possible(s, a) then Step(s, a, codec) else s
  }

  /** All calls made through the channel, all those made through the session, and all answers given. */
  datatype History<!C> = History(calls: seq<Call<C>>, callsBack: seq<Call<C>>, answers: seq<Served>)

  function HistoryOf<C>(s: System<C>, actions: seq<Action<C>>, codec: Codec<C>): History<C>
    decreases |actions|
  {
    if actions == [] then History([], [], [])
    else
      var rest := HistoryOf(After(s, actions[0], codec), actions[1..], codec);
      History(CallIn(s, actions[0]) + rest.calls, CallBackIn(s, actions[0]) + rest.callsBack,
              AnswerIn(s, actions[0]) + rest.answers)
  }

  /** The packets that are not responses. */
  function NotReplies(ps: seq<Packet>): seq<Packet>
  {
    if ps == [] then []
    else NotReplies(ps[..|ps| - 1]) + if ps[|ps| - 1].methodId != 0 then [ps[|ps| - 1]] else []
  }

  lemma NotRepliesMore(ps: seq<Packet>, p: Packet)
    ensures NotReplies(ps + [p]) == NotReplies(ps) + if p.methodId != 0 then [p] else []
  {
    assert (ps + [p])[..|ps|] == ps;
  }

  /** One action: what it adds to the history is what it adds to the system. */
  lemma StepHistory<C>(s: System<C>, a: Action<C>, codec: Codec<C>)
    ensures After(s, a, codec).issued == s.issued + CallIn(s, a)
    ensures After(s, a, codec).served == s.served + AnswerIn(s, a)
  {
    hide Take, Send, Heard, Asked, RpcSystem.Arrive, Pow256;
  }

  lemma DownKept<C>(s: System<C>, a: Action<C>, codec: Codec<C>)
    requires Possible(s, a) ==> !a.Answer? && !a.ServerCall?
    ensures var z := After(s, a, codec); z.down.sent == s.down.sent && z.server.lastGuid == s.server.lastGuid
  {
    hide Recv, Heard, Pow256, EncodeAll;
  }

  lemma BackOrdered<C>(s: System<C>, a: Action<C>, codec: Codec<C>, callsBack: seq<Call<C>>)
    requires NotReplies(s.down.sent) == Requests(callsBack) && |callsBack| == s.server.lastGuid
    ensures var z := After(s, a, codec);
            NotReplies(z.down.sent) == Requests(callsBack + CallBackIn(s, a)) && |callsBack + CallBackIn(s, a)| == z.server.lastGuid
  {
    hide Heard, RpcSystem.Arrive, Pow256, Recv, EncodeAll, NotReplies, Requests;
    if a.ServerCall? && Possible(s, a) {
      var p := CalledBack(s.server, a.call).1;
      NotRepliesMore(s.down.sent, p);
      RequestsMore(callsBack, a.call);
      assert p == Request(callsBack + [a.call], |callsBack|);
    } else {
      assert callsBack + CallBackIn(s, a) == callsBack;
      if a.Answer? && Possible(s, a) {
        var p := Answered(s.server, a.i, a.answer).1;
        NotRepliesMore(s.down.sent, p);
        assert NotReplies(s.down.sent + [p]) == NotReplies(s.down.sent);
      } else {
        DownKept(s, a, codec);
      }
    }
  }

  /** Each context that waits in the session is that of the call with its guid. */
  ghost predicate Filed<C>(contexts: map<nat, C>, calls: seq<Call<C>>)
  {
    forall g :: g in contexts ==> 1 <= g <= |calls| && contexts[g] == calls[g - 1].context
  }

  lemma StaysFiled<C>(s: System<C>, a: Action<C>, codec: Codec<C>, callsBack: seq<Call<C>>)
    requires Filed(s.server.contexts, callsBack) && |callsBack| == s.server.lastGuid
    ensures Filed(After(s, a, codec).server.contexts, callsBack + CallBackIn(s, a))
  {
    hide Recv, Heard, Pow256, EncodeAll;
    if a.ServerReads? && Possible(s, a) {
      assert After(s, a, codec).server.contexts.Keys <= s.server.contexts.Keys;
      assert callsBack + CallBackIn(s, a) == callsBack;
    }
  }

  lemma RequestsMore<C>(calls: seq<Call<C>>, call: Call<C>)
    ensures Requests(calls + [call]) == Requests(calls) + [Request(calls + [call], |calls|)]
  {
  }

  lemma {:induction false} RunHistory<C>(s: System<C>, actions: seq<Action<C>>, codec: Codec<C>, callsBack: seq<Call<C>>)
    requires NotReplies(s.down.sent) == Requests(callsBack) && |callsBack| == s.server.lastGuid
    requires Filed(s.server.contexts, callsBack)
    ensures var z, h := Run(s, actions, codec), HistoryOf(s, actions, codec);
            && z.issued == s.issued + h.calls && z.served == s.served + h.answers
            && NotReplies(z.down.sent) == Requests(callsBack + h.callsBack)
            && |callsBack + h.callsBack| == z.server.lastGuid && Filed(z.server.contexts, callsBack + h.callsBack)
    decreases |actions|
  {
    hide Step, Possible, CallIn, CallBackIn, AnswerIn, NotReplies, Requests, Filed;
    if actions == [] {
      assert callsBack + [] == callsBack;
    } else {
      var a := actions[0];
      StepHistory(s, a, codec);
      BackOrdered(s, a, codec, callsBack);
      StaysFiled(s, a, codec, callsBack);
      RunHistory(After(s, a, codec), actions[1..], codec, callsBack + CallBackIn(s, a));
      var rest := HistoryOf(After(s, a, codec), actions[1..], codec);
      assert (callsBack + CallBackIn(s, a)) + rest.callsBack == callsBack + (CallBackIn(s, a) + rest.callsBack);
    }
  }

  /** For every run: the calls that got a guid are those made through the channel while it was not
      closed, in their order; the answers served are those given, each for the job it was given for;
      and the packets with a method id that went down to the client are the session's calls, with
      the guids 1, 2, ..., allocate_guid_, and their contexts are filed under these. */
  lemma AsCalled<C>(actions: seq<Action<C>>, codec: Codec<C>)
    ensures var s, h := Run(Init(), actions, codec), HistoryOf(Init(), actions, codec);
            && s.issued == h.calls && s.served == h.answers
            && var packets := NotReplies(s.down.sent);
            && |packets| == |h.callsBack| == s.server.lastGuid
            && forall i :: 0 <= i < |packets| ==>
                 && packets[i].guid == i + 1 && packets[i].methodId == h.callsBack[i].methodId
                 && packets[i].content == h.callsBack[i].request
                 && (i + 1 in s.server.contexts ==> s.server.contexts[i + 1] == h.callsBack[i].context)
  {
    hide Step;
    var none: seq<Call<C>> := [];
    var s, h := Run(Init(), actions, codec), HistoryOf(Init(), actions, codec);
    assert Requests(none) == [] == NotReplies([]);
    RunHistory(Init(), actions, codec, none);
    assert none + h.callsBack == h.callsBack && none + h.calls == h.calls;
    assert NotReplies(s.down.sent) == Requests(h.callsBack);
  }

  // ---- the status ----

  /** A status leaves Idle with the first call, and Connecting when the socket becomes writable. */
  lemma StatusSteps<C>(s: System<C>, a: Action<C>, codec: Codec<C>)
    requires Possible(s, a)
    ensures var z := Step(s, a, codec);
            && (s.client.status == Idle && a.ClientCall? ==> z.client.status == if a.refused then Closed else Connecting)
            && (s.client.status == Connecting && a.Connect? ==> z.client.status == Connected)
            && (!(s.client.status == Idle && a.ClientCall?) && !a.Connect? ==> z.client.status == s.client.status)
  {
    hide Take, Send, Asked, RpcSystem.Arrive, Pow256;
  }

  /** Whenever the socket of a connecting channel becomes writable, after whatever run: the channel is
      connected, its queue is empty, and the packets of all calls made so far, 1, 2, ..., are sent. */
  lemma ConnectSends<C>(actions: seq<Action<C>>, codec: Codec<C>)
    requires Possible(Run(Init(), actions, codec), Connect)
    ensures var s := Run(Init(), actions, codec);
            var z := Step(s, Connect, codec);
            && s.up.sent == [] && z.client.status == Connected && z.client.queue == []
            && z.issued == s.issued == HistoryOf(Init(), actions, codec).calls
            && z.up.sent == Requests(s.issued) && z.up.coming == s.up.coming + EncodeAll(Requests(s.issued))
  {
    hide Flows, Matched, Worked, Pow256, EncodeAll;
    InitInv(codec);
    RunKeeps(Init(), actions, codec);
    AsCalled(actions, codec);
    var s := Run(Init(), actions, codec);
    assert s.up.sent + s.client.queue == s.client.queue;
  }

  // ---- every open run can be completed ----

  lemma {:induction false} RunOn<C>(s: System<C>, first: seq<Action<C>>, more: seq<Action<C>>, codec: Codec<C>)
    ensures Run(s, first + more, codec) == Run(Run(s, first, codec), more, codec)
    decreases |first|
  {
    hide Step, Possible;
    if first == [] {
      assert first + more == more;
    } else {
      assert (first + more)[0] == first[0] && (first + more)[1..] == first[1..] + more;
      RunOn(After(s, first[0], codec), first[1..], more, codec);
    }
  }

  predicate NewCall<C>(a: Action<C>)
  {
    a.ClientCall? || a.ServerCall?
  }

  /** No call is made; the state and the history of the calls stay. */
  ghost predicate Completes<C>(s: System<C>, rest: seq<Action<C>>, z: System<C>, codec: Codec<C>)
  {
    && (forall i :: 0 <= i < |rest| ==> !NewCall(rest[i]))
    && z == Run(s, rest, codec) && Inv(z, codec)
    && z.issued == s.issued && z.client.status.Connected?
  }

  lemma CompletesThen<C>(s: System<C>, first: seq<Action<C>>, m: System<C>, more: seq<Action<C>>, z: System<C>, codec: Codec<C>)
    requires Completes(s, first, m, codec) && Completes(m, more, z, codec)
    ensures Completes(s, first + more, z, codec)
  {
    hide Inv, Run;
    RunOn(s, first, more, codec);
  }

  lemma OneStep<C>(s: System<C>, a: Action<C>, codec: Codec<C>)
    requires Inv(s, codec) && Possible(s, a) && !NewCall(a) && (s.client.status.Connected? || a.Connect?)
    ensures Completes(s, [a], Step(s, a, codec), codec)
  {
    hide Inv, Take, Asked, RpcSystem.Arrive, Send;
    StepKeeps(s, a, codec);
    assert [a][1..] == [];
    assert Run(s, [a], codec) == Step(s, a, codec) by { RunNothing(Step(s, a, codec), codec); }
  }

  /** The server reads until RecvPacket finds nothing. */
  lemma {:induction false} ServerReadsAll<C>(s: System<C>, codec: Codec<C>) returns (rest: seq<Action<C>>, z: System<C>)
    requires Inv(s, codec) && s.client.status.Connected? && s.up.coming == []
    ensures Completes(s, rest, z, codec)
    ensures z.up.coming == [] && !z.up.parser.state.Done? && Take(z.up).1.None?
    decreases |s.up.buffered|, if s.up.parser.state.Body? then 1 else 0
  {
    hide Recv, Inv, Asked, Run;
    assert !s.up.parser.state.Done? by { Intact(s, codec); }
    if Take(s.up).1.None? {
      rest, z := [], s;
      Stays(s, codec);
    } else {
      RecvProgress(s.up.parser, s.up.buffered);
      var m := Step(s, ServerReads, codec);
      OneStep(s, ServerReads, codec);
      var more;
      more, z := ServerReadsAll(m, codec);
      rest := [ServerReads] + more;
      CompletesThen(s, [ServerReads], m, more, z, codec);
    }
  }

  lemma RunNothing<C>(s: System<C>, codec: Codec<C>)
    ensures Run(s, [], codec) == s
  {
  }

  lemma Stays<C>(s: System<C>, codec: Codec<C>)
    requires Inv(s, codec) && s.client.status.Connected?
    ensures Completes(s, [], s, codec)
  {
    hide Inv;
    RunNothing(s, codec);
  }

  lemma Intact<C>(s: System<C>, codec: Codec<C>)
    requires Inv(s, codec)
    ensures !s.up.parser.state.Done? && !s.down.parser.state.Done?
  {
    hide Ordered, Matched, Worked;
  }

  /** The services answer the oldest job until none is left. */
  lemma {:induction false} ServicesAnswerAll<C>(s: System<C>, codec: Codec<C>) returns (rest: seq<Action<C>>, z: System<C>)
    requires Inv(s, codec) && s.client.status.Connected?
    ensures Completes(s, rest, z, codec) && z.up == s.up && z.server.pending == []
    decreases |s.server.pending|
  {
    hide Inv, Run, Pow256;
    if s.server.pending == [] {
      rest, z := [], s;
      Stays(s, codec);
    } else {
      var a := Answer(0, []);
      assert Possible(s, a);
      var m := Step(s, a, codec);
      OneStep(s, a, codec);
      var more;
      more, z := ServicesAnswerAll(m, codec);
      rest := [a] + more;
      CompletesThen(s, [a], m, more, z, codec);
    }
  }

  lemma {:induction false} ClientReadsAll<C>(s: System<C>, codec: Codec<C>) returns (rest: seq<Action<C>>, z: System<C>)
    requires Inv(s, codec) && s.client.status.Connected? && s.down.coming == []
    ensures Completes(s, rest, z, codec) && z.up == s.up && z.server == s.server
    ensures z.down.coming == [] && !z.down.parser.state.Done? && Take(z.down).1.None?
    decreases |s.down.buffered|, if s.down.parser.state.Body? then 1 else 0
  {
    hide Recv, Inv, Heard, Run;
    assert !s.down.parser.state.Done? by { Intact(s, codec); }
    if Take(s.down).1.None? {
      rest, z := [], s;
      Stays(s, codec);
    } else {
      RecvProgress(s.down.parser, s.down.buffered);
      var m := Step(s, ClientReads, codec);
      OneStep(s, ClientReads, codec);
      var more;
      more, z := ClientReadsAll(m, codec);
      rest := [ClientReads] + more;
      CompletesThen(s, [ClientReads], m, more, z, codec);
    }
  }

  lemma RequestsArrive<C>(s: System<C>, codec: Codec<C>) returns (rest: seq<Action<C>>, z: System<C>)
    requires Inv(s, codec) && (s.client.status.Connecting? || s.client.status.Connected?)
    ensures Completes(s, rest, z, codec)
    ensures z.up.coming == [] && !z.up.parser.state.Done? && Take(z.up).1.None?
  {
    hide Inv, Run, Take, Send;
    var connect: seq<Action<C>>, m := [], s;
    if s.client.status.Connecting? {
      connect, m := [Connect], Step(s, Connect, codec);
      OneStep(s, Connect, codec);
    } else {
      Stays(s, codec);
    }
    var a := UpArrives(|m.up.coming|);
    var u := Step(m, a, codec);
    OneStep(m, a, codec);
    CompletesThen(s, connect, m, [a], u, codec);
    var more;
    more, z := ServerReadsAll(u, codec);
    rest := connect + [a] + more;
    CompletesThen(s, connect + [a], u, more, z, codec);
  }

  lemma AnswersArrive<C>(s: System<C>, codec: Codec<C>) returns (rest: seq<Action<C>>, z: System<C>)
    requires Inv(s, codec) && s.client.status.Connected?
    ensures Completes(s, rest, z, codec) && z.up == s.up && z.server.pending == []
    ensures z.down.coming == [] && !z.down.parser.state.Done? && Take(z.down).1.None?
  {
    hide Inv, Run, Take;
    var answer, m := ServicesAnswerAll(s, codec);
    var a := DownArrives(|m.down.coming|);
    var u := Step(m, a, codec);
    OneStep(m, a, codec);
    CompletesThen(s, answer, m, [a], u, codec);
    var more;
    more, z := ClientReadsAll(u, codec);
    rest := answer + [a] + more;
    CompletesThen(s, answer + [a], u, more, z, codec);
  }

  /** From every reachable state whose channel is connecting or connected, without a further call,
      everything can come to rest; and then exactly the calls wait whose request the server could
      not use. */
  lemma QuietReachable<C>(actions: seq<Action<C>>, codec: Codec<C>) returns (rest: seq<Action<C>>)
    requires var status := Run(Init(), actions, codec).client.status; status.Connecting? || status.Connected?
    ensures forall i :: 0 <= i < |rest| ==> !NewCall(rest[i])
    ensures Quiet(Run(Init(), actions + rest, codec))
    ensures var s, z := Run(Init(), actions, codec), Run(Init(), actions + rest, codec);
            && z.issued == s.issued == HistoryOf(Init(), actions, codec).calls
            && forall g: nat :: g in z.client.contexts <==>
                 1 <= g <= |s.issued| && !codec.accepts(s.issued[g - 1].methodId, s.issued[g - 1].request)
  {
    hide Inv, Take, Run, HistoryOf;
    InitInv(codec);
    RunKeeps(Init(), actions, codec);
    AsCalled(actions, codec);
    var s := Run(Init(), actions, codec);
    var first, m := RequestsArrive(s, codec);
    var more, z := AnswersArrive(m, codec);
    rest := first + more;
    CompletesThen(s, first, m, more, z, codec);
    RunOn(Init(), actions, rest, codec);
    forall g: nat ensures g in z.client.contexts <==>
                 1 <= g <= |s.issued| && !codec.accepts(s.issued[g - 1].methodId, s.issued[g - 1].request)
    {
      QuietAll(z, codec, g);
    }
  }
}
