/** One channel and one session joined by two byte streams: any number of calls from either side,
    any fragmentation, and services that answer when and in what order they like. */
module RpcSystem {
  import opened Wrappers
  import opened Buffers
  import opened Packets
  import opened Rpc

  /** One direction: the receiver's parser and read buffer, the bytes on their way to it (in the
      sender's write buffer or in the network), all packets sent, and how many were received. */
  datatype Link = Link(parser: Parser, buffered: seq<Byte>, coming: seq<Byte>, sent: seq<Packet>, got: nat)

  function Send(l: Link, ps: seq<Packet>): Link
  {
    l.(coming := l.coming + EncodeAll(ps), sent := l.sent + ps)
  }

  function Arrive(l: Link, n: nat): Link
    requires n <= |l.coming|
  {
    l.(buffered := l.buffered + l.coming[..n], coming := l.coming[n..])
  }

  /** One RecvPacket. */
  function Take(l: Link): (Link, Option<Packet>)
    requires !l.parser.state.Done?
  {
    var r := Recv(l.parser, l.buffered);
    (l.(parser := r.parser, buffered := r.rest, got := if r.ok then l.got + 1 else l.got),
     if r.ok then Some(r.parser.packet) else None)
  }

  datatype Served = Served(job: Job, answer: seq<Byte>)

  /** `up` leads to the server and `down` to the client.  The history: the calls that got a guid,
      the jobs answered, and the request contexts finished, each in the order it happened. */
  datatype System<!C> = System(
    client: Client<C>, server: Server<C>, up: Link, down: Link,
    issued: seq<Call<C>>, served: seq<Served>, finished: seq<Finished<C>>)

  /** The parts that are not modelled: can the server use this request, can the client use this answer. */
  datatype Codec<!C> = Codec(accepts: (nat, seq<Byte>) -> bool, parses: (C, seq<Byte>) -> bool)

  const NO_PACKET: Packet := Packet(0, 0, 0, 0, [])
  const NEW_LINK: Link := Link(Parser(Header, NO_PACKET), [], [], [], 0)

  function Init<C>(): System<C>
  {
    System(Client(Idle, 0, [], map[]), Server(0, map[], []), NEW_LINK, NEW_LINK, [], [], [])
  }

  datatype Action<C> =
    | ClientCall(call: Call<C>, refused: bool)
    | Connect
    | UpArrives(n: nat)
    | ServerReads
    | Answer(i: nat, answer: seq<Byte>)
    | ServerCall(call: Call<C>)
    | DownArrives(n: nat)
    | ClientReads

  /** Method hashes are not zero and content and counters fit their fields. */
  predicate Sendable<C>(call: Call<C>, lastGuid: nat)
  {
    0 < call.methodId < Pow256(8) && |call.request| < Pow256(4) && lastGuid + 1 < Pow256(8)
  }

  predicate Possible<C>(s: System<C>, a: Action<C>)
  {
    match a
    case ClientCall(call, _) => Sendable(call, s.client.lastGuid)
    case Connect => s.client.status.Connecting?
    case UpArrives(n) => n <= |s.up.coming|
    case ServerReads => !s.up.parser.state.Done?
    case Answer(i, answer) => i < |s.server.pending| && |answer| < Pow256(4)
    case ServerCall(call) => s.client.status.Connected? && Sendable(call, s.server.lastGuid)
    case DownArrives(n) => n <= |s.down.coming|
    case ClientReads => s.client.status.Connected? && !s.down.parser.state.Done?
  }

  function Step<C>(s: System<C>, a: Action<C>, codec: Codec<C>): System<C>
    requires Possible(s, a)
  {
    match a
    case ClientCall(call, refused) =>
      var (client, packets) := Called(s.client, call, refused);
      s.(client := client, up := Send(s.up, packets), issued := if s.client.status.Closed? then s.issued else s.issued + [call])
    case Connect =>
      var (client, packets) := Opened(s.client);
      s.(client := client, up := Send(s.up, packets))
    case UpArrives(n) => s.(up := Arrive(s.up, n))
    case ServerReads =>
      (match Take(s.up)
       case (up, None) => s.(up := up)
       case (up, Some(p)) => s.(up := up, server := Asked(s.server, p, codec.accepts).0))
    case Answer(i, answer) =>
      var (server, p) := Answered(s.server, i, answer);
      s.(server := server, down := Send(s.down, [p]), served := s.served + [Served(s.server.pending[i], answer)])
    case ServerCall(call) =>
      var (server, p) := CalledBack(s.server, call);
      s.(server := server, down := Send(s.down, [p]))
    case DownArrives(n) => s.(down := Arrive(s.down, n))
    case ClientReads =>
      (match Take(s.down)
       case (down, None) => s.(down := down)
       case (down, Some(p)) =>
         var (client, f) := Heard(s.client, p, codec.parses);
         s.(down := down, client := client, finished := s.finished + (if f.Some? then [f.value] else [])))
  }

  function Run<C>(s: System<C>, actions: seq<Action<C>>, codec: Codec<C>): System<C>
    decreases |actions|
  {
    if actions == [] then s
    else Run(if Possible(s, actions[0]) then Step(s, actions[0], codec) else s, actions[1..], codec)
  }

  // ---- OnRead is a series of reading steps ----

  function Times<C>(a: Action<C>, n: nat): seq<Action<C>>
  {
    if n == 0 then [] else [a] + Times(a, n - 1)
  }

  lemma {:induction false} ChannelReads<C>(s: System<C>, codec: Codec<C>) returns (n: nat)
    requires s.client.status.Connected? && !s.down.parser.state.Done?
    ensures var (client, finished, parser, rest) := Hears(s.client, s.down.parser, s.down.buffered, codec.parses);
            var z := Run(s, Times(ClientReads, n), codec);
            z == s.(client := client, finished := s.finished + finished, down := s.down.(parser := parser, buffered := rest, got := z.down.got))
    decreases |s.down.buffered|, if s.down.parser.state.Body? then 1 else 0
  {
    hide Recv, Hears;
    HearsNext(s.client, s.down.parser, s.down.buffered, codec.parses, s.finished);
    var z := Step(s, ClientReads, codec);
    if Take(s.down).1.Some? {
      RecvProgress(s.down.parser, s.down.buffered);
      var m := ChannelReads(z, codec);
      n := m + 1;
    } else {
      n := 1;
    }
    assert Times<C>(ClientReads, n)[1..] == Times<C>(ClientReads, n - 1);
  }

  lemma {:induction false} SessionReads<C>(s: System<C>, codec: Codec<C>) returns (n: nat)
    requires !s.up.parser.state.Done?
    ensures var (server, finished, parser, rest) := Serves(s.server, s.up.parser, s.up.buffered, codec.accepts);
            var z := Run(s, Times(ServerReads, n), codec);
            z == s.(server := server, up := s.up.(parser := parser, buffered := rest, got := z.up.got))
    decreases |s.up.buffered|, if s.up.parser.state.Body? then 1 else 0
  {
    hide Recv, Serves;
    ServesNext(s.server, s.up.parser, s.up.buffered, codec.accepts, []);
    var z := Step(s, ServerReads, codec);
    if Take(s.up).1.Some? {
      RecvProgress(s.up.parser, s.up.buffered);
      var m := SessionReads(z, codec);
      n := m + 1;
    } else {
      n := 1;
    }
    assert Times<C>(ServerReads, n)[1..] == Times<C>(ServerReads, n - 1);
  }

  // ---- one link ----

  ghost predicate Flows(l: Link)
  {
    && l.got <= |l.sent| && AllWellFormed(l.sent) && !l.parser.state.Done?
    && InSync(l.parser, l.buffered, l.sent[l.got..], l.coming)
  }

  lemma InSyncMore(p: Parser, buffered: seq<Byte>, rest: seq<Packet>, coming: seq<Byte>, ps: seq<Packet>)
    requires InSync(p, buffered, rest, coming)
    ensures InSync(p, buffered, rest + ps, coming + EncodeAll(ps))
  {
    hide EncodeAll;
    assert buffered + (coming + EncodeAll(ps)) == (buffered + coming) + EncodeAll(ps);
    if p.state.Header? {
      EncodeSplit(rest, ps);
    } else {
      EncodeSplit(rest[1..], ps);
      assert (rest + ps)[1..] == rest[1..] + ps && (rest + ps)[0] == rest[0];
      var content, more := rest[0].content, EncodeAll(rest[1..]);
      assert (content + more) + EncodeAll(ps) == content + (more + EncodeAll(ps));
    }
  }

  lemma SendFlows(l: Link, ps: seq<Packet>)
    requires Flows(l) && AllWellFormed(ps)
    ensures Flows(Send(l, ps))
  {
    hide InSync;
    InSyncMore(l.parser, l.buffered, l.sent[l.got..], l.coming, ps);
    assert (l.sent + ps)[l.got..] == l.sent[l.got..] + ps;
  }

  lemma ArriveFlows(l: Link, n: nat)
    requires Flows(l) && n <= |l.coming|
    ensures Flows(Arrive(l, n))
  {
    assert l.buffered + l.coming == (l.buffered + l.coming[..n]) + l.coming[n..];
  }

  /** Whatever has arrived, RecvPacket yields the next packet sent or nothing. */
  lemma TakeFlows(l: Link)
    requires Flows(l)
    ensures var (m, p) := Take(l);
            Flows(m) && m.sent == l.sent && (p.Some? ==> l.got < |l.sent| && p.value == l.sent[l.got])
  {
    RecvInSync(l.parser, l.buffered, l.sent[l.got..], l.coming);
    if l.got < |l.sent| { assert l.sent[l.got..][1..] == l.sent[l.got + 1..]; }
  }

  /** When every byte has arrived and RecvPacket finds nothing, every packet was received. */
  lemma TakenAll(l: Link)
    requires Flows(l) && l.coming == [] && Take(l).1.None?
    ensures l.got == |l.sent|
  {
    var rest := l.sent[l.got..];
    RecvInSync(l.parser, l.buffered, rest, l.coming);
    var r := Recv(l.parser, l.buffered);
    assert r.rest + l.coming == r.rest;
  }

  // ---- requests ----

  function Request<C>(issued: seq<Call<C>>, i: nat): Packet
    requires i < |issued|
  {
    NewPacket(i + 1, issued[i].methodId, issued[i].request)
  }

  function Requests<C>(issued: seq<Call<C>>): seq<Packet>
  {
    seq(|issued|, i requires 0 <= i < |issued| => Request(issued, i))
  }

  /** Sent and queued packets, in this order, are the calls 1, 2, ..., allocate_guid_; a connected
      channel queues nothing and another one has sent nothing. */
  ghost predicate Ordered<C>(s: System<C>)
  {
    && |s.issued| == s.client.lastGuid < Pow256(8)
    && (forall i :: 0 <= i < |s.issued| ==> Sendable(s.issued[i], i))
    && s.up.sent + s.client.queue == Requests(s.issued)
    && (if s.client.status.Connected? then s.client.queue == [] else s.up.sent == [])
    && (s.client.status.Idle? ==> s.issued == [])
  }

  function JobOf<C>(issued: seq<Call<C>>, i: nat): Job
    requires i < |issued|
  {
    Job(i + 1, issued[i].methodId, issued[i].request)
  }

  /** The jobs that the first n requests give rise to. */
  function Accepted<C>(issued: seq<Call<C>>, n: nat, codec: Codec<C>): seq<Job>
    requires n <= |issued|
  {
    if n == 0 then []
    else Accepted(issued, n - 1, codec) +
         if codec.accepts(issued[n - 1].methodId, issued[n - 1].request) then [JobOf(issued, n - 1)] else []
  }

  function Jobs(served: seq<Served>): seq<Job>
  {
    seq(|served|, i requires 0 <= i < |served| => served[i].job)
  }

  /** Of the accepted requests received, each is in work or answered, and only once. */
  ghost predicate Worked<C>(s: System<C>, codec: Codec<C>)
  {
    && s.up.got <= |s.issued|
    && multiset(s.server.pending) + multiset(Jobs(s.served)) == multiset(Accepted(s.issued, s.up.got, codec))
  }

  // ---- responses ----

  function Replies(ps: seq<Packet>): seq<Packet>
  {
    if ps == [] then []
    else Replies(ps[..|ps| - 1]) + if ps[|ps| - 1].methodId == 0 then [ps[|ps| - 1]] else []
  }

  function Reply(x: Served): Packet
  {
    NewPacket(x.job.guid, 0, x.answer)
  }

  function Answers(served: seq<Served>): seq<Packet>
  {
    seq(|served|, i requires 0 <= i < |served| => Reply(served[i]))
  }

  /** The responses sent are those of the jobs answered, in order; the ones received so far have
      finished the requests with the same guids, and all other contexts wait. */
  ghost predicate Matched<C>(s: System<C>, codec: Codec<C>)
  {
    && s.server.lastGuid < Pow256(8)
    && |s.finished| <= |s.served| && s.down.got <= |s.down.sent|
    && Replies(s.down.sent) == Answers(s.served)
    && Replies(s.down.sent[..s.down.got]) == Replies(s.down.sent)[..|s.finished|]
    && (forall k :: 0 <= k < |s.finished| ==> FinishedBy(s, k, codec))
    && (forall g :: g in s.client.contexts ==> 1 <= g <= |s.issued| && s.client.contexts[g] == s.issued[g - 1].context)
    && (forall g :: 1 <= g <= |s.issued| ==> (g in s.client.contexts <==> Waiting(s, g)))
  }

  ghost predicate Waiting<C>(s: System<C>, g: nat)
  {
    forall k :: 0 <= k < |s.finished| ==> s.finished[k].guid != g
  }

  /** The k-th context finished is that of the k-th job answered, and got its answer. */
  ghost predicate FinishedBy<C>(s: System<C>, k: nat, codec: Codec<C>)
    requires k < |s.finished| <= |s.served|
  {
    var f := s.finished[k];
    && 1 <= f.guid <= |s.issued| && f.context == s.issued[f.guid - 1].context
    && s.served[k] == Served(JobOf(s.issued, f.guid - 1), f.answer)
    && f.ran == codec.parses(f.context, f.answer)
  }

  ghost predicate Inv<C>(s: System<C>, codec: Codec<C>)
  {
    && Flows(s.up) && Flows(s.down)
    && Ordered(s) && Worked(s, codec) && Matched(s, codec)
  }

  lemma InitInv<C>(codec: Codec<C>)
    ensures Inv(Init<C>(), codec)
  {
    var s := Init<C>();
    assert s.up.sent + s.client.queue == Requests(s.issued);
    assert Replies(s.down.sent) == Answers(s.served);
    assert Jobs(s.served) == [];
  }

  // ---- requests: what each step keeps ----

  lemma {:induction false} AcceptedMore<C>(issued: seq<Call<C>>, call: Call<C>, n: nat, codec: Codec<C>)
    requires n <= |issued|
    ensures Accepted(issued + [call], n, codec) == Accepted(issued, n, codec)
  {
    if n > 0 { AcceptedMore(issued, call, n - 1, codec); }
  }

  lemma {:induction false} AcceptedGuid<C>(issued: seq<Call<C>>, n: nat, codec: Codec<C>, job: Job)
    requires n <= |issued| && job in Accepted(issued, n, codec)
    ensures 1 <= job.guid <= n && job == JobOf(issued, job.guid - 1)
    ensures codec.accepts(job.methodId, job.request)
  {
    if job in Accepted(issued, n - 1, codec) { AcceptedGuid(issued, n - 1, codec, job); }
  }

  lemma {:induction false} AcceptedOnce<C>(issued: seq<Call<C>>, n: nat, codec: Codec<C>, job: Job)
    requires n <= |issued|
    ensures multiset(Accepted(issued, n, codec))[job] <= 1
  {
    if n > 0 {
      AcceptedOnce(issued, n - 1, codec, job);
      if job in Accepted(issued, n - 1, codec) { AcceptedGuid(issued, n - 1, codec, job); }
    }
  }

  lemma {:induction false} AcceptedAll<C>(issued: seq<Call<C>>, n: nat, codec: Codec<C>, i: nat)
    requires i < n <= |issued| && codec.accepts(issued[i].methodId, issued[i].request)
    ensures JobOf(issued, i) in Accepted(issued, n, codec)
  {
    if i < n - 1 { AcceptedAll(issued, n - 1, codec, i); }
  }

  /** A job answered or in work is that of the call with its guid, and no job is answered twice. */
  lemma JobKnown<C>(s: System<C>, codec: Codec<C>, job: Job)
    requires Worked(s, codec) && (job in s.server.pending || job in Jobs(s.served))
    ensures 1 <= job.guid <= |s.issued| && job == JobOf(s.issued, job.guid - 1)
  {
    assert job in multiset(s.server.pending) + multiset(Jobs(s.served));
    AcceptedGuid(s.issued, s.up.got, codec, job);
  }

  lemma Twice<X>(xs: seq<X>, i: nat, j: nat)
    requires i < j < |xs| && xs[i] == xs[j]
    ensures multiset(xs)[xs[i]] >= 2
  {
    assert xs == xs[..j] + [xs[j]] + xs[j + 1..];
    assert xs[..j][i] == xs[i];
  }

  lemma ServedOnce<C>(s: System<C>, codec: Codec<C>, i: nat, j: nat)
    requires Worked(s, codec) && i < j < |s.served|
    ensures s.served[i].job.guid != s.served[j].job.guid
  {
    hide Accepted;
    var jobs := Jobs(s.served);
    assert jobs[i] in jobs && jobs[j] in jobs;
    JobKnown(s, codec, jobs[i]);
    JobKnown(s, codec, jobs[j]);
    if jobs[i] == jobs[j] {
      Twice(jobs, i, j);
      AcceptedOnce(s.issued, s.up.got, codec, jobs[i]);
    }
  }

  lemma MatchedStill<C>(s: System<C>, z: System<C>, codec: Codec<C>)
    requires Matched(s, codec) && z.issued == s.issued && z.served == s.served && z.finished == s.finished
    requires z.client.contexts == s.client.contexts && z.down.sent == s.down.sent && z.down.got == s.down.got
    requires z.server.lastGuid == s.server.lastGuid
    ensures Matched(z, codec)
  {
    hide Replies, Answers, Pow256;
    forall g | 1 <= g <= |z.issued| ensures Waiting(z, g) <==> Waiting(s, g) {}
    forall k | 0 <= k < |z.finished| ensures FinishedBy(z, k, codec) { assert FinishedBy(s, k, codec); }
  }

  // ---- the client calls, or gets connected ----

  lemma CallOrdered<C>(s: System<C>, call: Call<C>, refused: bool, codec: Codec<C>)
    requires Ordered(s) && Possible(s, ClientCall(call, refused))
    ensures Ordered(Step(s, ClientCall(call, refused), codec))
    ensures AllWellFormed(Called(s.client, call, refused).1)
  {
    hide Pow256, EncodeAll;
    var z := Step(s, ClientCall(call, refused), codec);
    if !s.client.status.Closed? {
      assert Requests(z.issued) == Requests(s.issued) + [Request(z.issued, |s.issued|)];
    }
  }

  lemma CallMatched<C>(s: System<C>, call: Call<C>, refused: bool, codec: Codec<C>)
    requires Ordered(s) && Matched(s, codec) && Possible(s, ClientCall(call, refused))
    ensures Matched(Step(s, ClientCall(call, refused), codec), codec)
  {
    hide Pow256, EncodeAll, Replies, Answers, Requests;
    var z := Step(s, ClientCall(call, refused), codec);
    forall k | 0 <= k < |z.finished| ensures FinishedBy(z, k, codec) { assert FinishedBy(s, k, codec); }
    forall g | 1 <= g <= |z.issued| ensures g in z.client.contexts <==> Waiting(z, g) {
      assert g <= |s.issued| ==> (Waiting(z, g) <==> Waiting(s, g));
      if g > |s.issued| {
        forall k | 0 <= k < |s.finished| ensures s.finished[k].guid != g { assert FinishedBy(s, k, codec); }
      }
    }
  }

  lemma ClientCallKeeps<C>(s: System<C>, call: Call<C>, refused: bool, codec: Codec<C>)
    requires Inv(s, codec) && Possible(s, ClientCall(call, refused))
    ensures Inv(Step(s, ClientCall(call, refused), codec), codec)
  {
    hide Flows, Ordered, Matched, Accepted, Called, Send;
    CallOrdered(s, call, refused, codec);
    SendFlows(s.up, Called(s.client, call, refused).1);
    CallMatched(s, call, refused, codec);
    CallWorked(s, call, refused, codec);
  }

  lemma CallWorked<C>(s: System<C>, call: Call<C>, refused: bool, codec: Codec<C>)
    requires Worked(s, codec) && Possible(s, ClientCall(call, refused))
    ensures Worked(Step(s, ClientCall(call, refused), codec), codec)
  {
    hide Accepted;
    AcceptedMore(s.issued, call, s.up.got, codec);
  }

  lemma ConnectKeeps<C>(s: System<C>, codec: Codec<C>)
    requires Inv(s, codec) && Possible(s, Connect)
    ensures Inv(Step(s, Connect, codec), codec)
  {
    hide Flows, Accepted, EncodeAll, Pow256, Replies;
    var z := Step(s, Connect, codec);
    assert z.up.sent == s.client.queue == Requests(s.issued);
    SendFlows(s.up, s.client.queue);
    MatchedStill(s, z, codec);
  }

  // ---- the server receives, answers, or calls ----

  lemma NextRequest<C>(s: System<C>)
    requires Ordered(s) && s.up.got < |s.up.sent|
    ensures s.up.got < |s.issued| && s.up.sent[s.up.got] == Request(s.issued, s.up.got)
    ensures 0 < s.issued[s.up.got].methodId
  {
    assert (s.up.sent + s.client.queue)[s.up.got] == Requests(s.issued)[s.up.got];
  }

  lemma ServerReadsKeeps<C>(s: System<C>, codec: Codec<C>)
    requires Inv(s, codec) && Possible(s, ServerReads)
    ensures Inv(Step(s, ServerReads, codec), codec)
  {
    hide Flows, Replies, Matched, Take, Ordered, Pow256;
    var z := Step(s, ServerReads, codec);
    TakeFlows(s.up);
    assert Ordered(z) by { SameOrder(s, z); }
    if Take(s.up).1.Some? { NextRequest(s); }
    assert Take(s.up).0.got == s.up.got + (if Take(s.up).1.Some? then 1 else 0) by { TakeCounts(s.up); }
    MatchedStill(s, z, codec);
  }

  lemma SameOrder<C>(s: System<C>, z: System<C>)
    requires Ordered(s) && z.issued == s.issued && z.up.sent == s.up.sent && z.client.status == s.client.status
    requires z.client.lastGuid == s.client.lastGuid && z.client.queue == s.client.queue
    ensures Ordered(z)
  {
    hide Pow256, Requests;
  }

  lemma TakeCounts(l: Link)
    requires !l.parser.state.Done?
    ensures Take(l).0.got == l.got + (if Take(l).1.Some? then 1 else 0)
  {
  }

  lemma RepliesMore(ps: seq<Packet>, p: Packet)
    ensures Replies(ps + [p]) == Replies(ps) + if p.methodId == 0 then [p] else []
  {
    assert (ps + [p])[..|ps|] == ps;
  }

  lemma Removed<X>(xs: seq<X>, i: nat)
    requires i < |xs|
    ensures multiset(xs[..i] + xs[i + 1..]) + multiset{xs[i]} == multiset(xs)
  {
    assert xs == xs[..i] + [xs[i]] + xs[i + 1..];
  }

  lemma AnswerWorked<C>(s: System<C>, i: nat, answer: seq<Byte>, codec: Codec<C>)
    requires Worked(s, codec) && Possible(s, Answer(i, answer))
    ensures Worked(Step(s, Answer(i, answer), codec), codec)
  {
    hide Accepted, EncodeAll, Pow256;
    Removed(s.server.pending, i);
    var z := Step(s, Answer(i, answer), codec);
    assert Jobs(z.served) == Jobs(s.served) + [s.server.pending[i]];
  }

  lemma AnswerMatched<C>(s: System<C>, i: nat, answer: seq<Byte>, codec: Codec<C>)
    requires Matched(s, codec) && Possible(s, Answer(i, answer))
    ensures Matched(Step(s, Answer(i, answer), codec), codec)
  {
    hide EncodeAll, Pow256, Replies;
    var z := Step(s, Answer(i, answer), codec);
    var p := Answered(s.server, i, answer).1;
    RepliesMore(s.down.sent, p);
    assert z.down.sent[..z.down.got] == s.down.sent[..s.down.got];
    assert Answers(z.served) == Answers(s.served) + [p];
    forall g | 1 <= g <= |z.issued| ensures Waiting(z, g) <==> Waiting(s, g) {}
    forall k | 0 <= k < |z.finished| ensures FinishedBy(z, k, codec) { assert FinishedBy(s, k, codec); }
  }

  lemma AnswerKeeps<C>(s: System<C>, i: nat, answer: seq<Byte>, codec: Codec<C>)
    requires Inv(s, codec) && Possible(s, Answer(i, answer))
    ensures Inv(Step(s, Answer(i, answer), codec), codec)
  {
    hide Flows, Replies, Matched, Worked, Send, Pow256;
    JobKnown(s, codec, s.server.pending[i]);
    assert WellFormed(NewPacket(s.server.pending[i].guid, 0, answer));
    SendFlows(s.down, [Answered(s.server, i, answer).1]);
    AnswerWorked(s, i, answer, codec);
    AnswerMatched(s, i, answer, codec);
  }

  lemma ServerCallMatched<C>(s: System<C>, call: Call<C>, codec: Codec<C>)
    requires Matched(s, codec) && Possible(s, ServerCall(call))
    ensures Matched(Step(s, ServerCall(call), codec), codec)
  {
    hide Replies, EncodeAll, Pow256;
    var z := Step(s, ServerCall(call), codec);
    RepliesMore(s.down.sent, CalledBack(s.server, call).1);
    assert z.down.sent[..z.down.got] == s.down.sent[..s.down.got];
    forall g | 1 <= g <= |z.issued| ensures Waiting(z, g) <==> Waiting(s, g) {}
    forall k | 0 <= k < |z.finished| ensures FinishedBy(z, k, codec) { assert FinishedBy(s, k, codec); }
  }

  lemma ServerCallKeeps<C>(s: System<C>, call: Call<C>, codec: Codec<C>)
    requires Inv(s, codec) && Possible(s, ServerCall(call))
    ensures Inv(Step(s, ServerCall(call), codec), codec)
  {
    hide Flows, Replies, Jobs, Accepted, Matched, Ordered, EncodeAll, Pow256;
    ServerCallMatched(s, call, codec);
    SameOrder(s, Step(s, ServerCall(call), codec));
    SendFlows(s.down, [CalledBack(s.server, call).1]);
  }

  // ---- the client receives ----

  lemma {:induction false} RepliesPrefix(ps: seq<Packet>, n: nat)
    requires n <= |ps|
    ensures |Replies(ps[..n])| <= |Replies(ps)| && Replies(ps[..n]) == Replies(ps)[..|Replies(ps[..n])|]
  {
    if n < |ps| {
      var init := ps[..|ps| - 1];
      RepliesPrefix(init, n);
      assert init[..n] == ps[..n];
    } else {
      assert ps[..n] == ps;
    }
  }

  /** The next response received is that of the next job answered, whose context still waits. */
  lemma NextReply<C>(s: System<C>, codec: Codec<C>)
    requires Worked(s, codec) && Matched(s, codec)
    requires s.down.got < |s.down.sent| && s.down.sent[s.down.got].methodId == 0
    ensures |s.finished| < |s.served| && s.down.sent[s.down.got] == Reply(s.served[|s.finished|])
    ensures var job := s.served[|s.finished|].job;
            1 <= job.guid <= |s.issued| && job == JobOf(s.issued, job.guid - 1) && job.guid in s.client.contexts
  {
    var k, sent, got := |s.finished|, s.down.sent, s.down.got;
    assert sent[..got + 1] == sent[..got] + [sent[got]];
    RepliesMore(sent[..got], sent[got]);
    RepliesPrefix(sent, got + 1);
    assert Replies(sent[..got + 1])[k] == sent[got];
    var job := Jobs(s.served)[k];
    assert job in Jobs(s.served);
    JobKnown(s, codec, job);
    forall i | 0 <= i < k ensures s.finished[i].guid != job.guid {
      ServedOnce(s, codec, i, k);
      assert FinishedBy(s, i, codec);
    }
    assert Waiting(s, job.guid);
  }

  lemma HeardMatched<C>(s: System<C>, codec: Codec<C>)
    requires Inv(s, codec) && Possible(s, ClientReads) && Take(s.down).1.Some?
    ensures Matched(Step(s, ClientReads, codec), codec)
  {
    hide Flows, Ordered, Worked, Take, Replies;
    TakeFlows(s.down);
    TakeCounts(s.down);
    var z := Step(s, ClientReads, codec);
    var sent, got := s.down.sent, s.down.got;
    assert sent[..got + 1] == sent[..got] + [sent[got]];
    RepliesMore(sent[..got], sent[got]);
    RepliesPrefix(sent, got + 1);
    if sent[got].methodId == 0 {
      NextReply(s, codec);
      assert z.finished[..|s.finished|] == s.finished && z.finished[|s.finished|].guid == sent[got].guid;
      forall k | 0 <= k < |z.finished| ensures FinishedBy(z, k, codec) {
        if k < |s.finished| { assert FinishedBy(s, k, codec); }
      }
      forall g | 1 <= g <= |z.issued| ensures Waiting(z, g) <==> Waiting(s, g) && g != sent[got].guid {
        assert forall k :: 0 <= k < |s.finished| ==> z.finished[k] == s.finished[k];
      }
    } else {
      assert z.finished == s.finished;
      forall g | 1 <= g <= |z.issued| ensures Waiting(z, g) <==> Waiting(s, g) {}
      forall k | 0 <= k < |z.finished| ensures FinishedBy(z, k, codec) { assert FinishedBy(s, k, codec); }
    }
  }

  lemma ClientReadsKeeps<C>(s: System<C>, codec: Codec<C>)
    requires Inv(s, codec) && Possible(s, ClientReads)
    ensures Inv(Step(s, ClientReads, codec), codec)
  {
    hide Flows, Replies, Jobs, Accepted, Matched, Ordered, Take, Pow256;
    var z := Step(s, ClientReads, codec);
    TakeFlows(s.down);
    SameOrder(s, z);
    if Take(s.down).1.Some? {
      HeardMatched(s, codec);
    } else {
      TakeCounts(s.down);
      MatchedStill(s, z, codec);
    }
  }

  lemma ArriveKeeps<C>(s: System<C>, a: Action<C>, codec: Codec<C>)
    requires Inv(s, codec) && Possible(s, a) && (a.UpArrives? || a.DownArrives?)
    ensures Inv(Step(s, a, codec), codec)
  {
    hide Flows, Replies, Jobs, Accepted, Matched, Ordered, Pow256;
    var z := Step(s, a, codec);
    if a.UpArrives? { ArriveFlows(s.up, a.n); } else { ArriveFlows(s.down, a.n); }
    SameOrder(s, z);
    MatchedStill(s, z, codec);
  }

  lemma StepKeeps<C>(s: System<C>, a: Action<C>, codec: Codec<C>)
    requires Inv(s, codec) && Possible(s, a)
    ensures Inv(Step(s, a, codec), codec)
  {
    hide *;
    match a
    case ClientCall(call, refused) => ClientCallKeeps(s, call, refused, codec);
    case Connect => ConnectKeeps(s, codec);
    case UpArrives(_) => ArriveKeeps(s, a, codec);
    case ServerReads => ServerReadsKeeps(s, codec);
    case Answer(i, answer) => AnswerKeeps(s, i, answer, codec);
    case ServerCall(call) => ServerCallKeeps(s, call, codec);
    case DownArrives(_) => ArriveKeeps(s, a, codec);
    case ClientReads => ClientReadsKeeps(s, codec);
  }

  lemma {:induction false} RunKeeps<C>(s: System<C>, actions: seq<Action<C>>, codec: Codec<C>)
    requires Inv(s, codec)
    ensures Inv(Run(s, actions, codec), codec)
    decreases |actions|
  {
    hide Inv, Step, Possible;
    if actions != [] {
      if Possible(s, actions[0]) {
        StepKeeps(s, actions[0], codec);
        RunKeeps(Step(s, actions[0], codec), actions[1..], codec);
      } else {
        RunKeeps(s, actions[1..], codec);
      }
    }
  }

  // ---- what holds at the end of every run ----

  /** The guids sent, followed by those queued, are 1, 2, ..., allocate_guid_, each with the method
      and the bytes of its call; once connected nothing is queued, and before that nothing is sent. */
  lemma WireOrder<C>(actions: seq<Action<C>>, codec: Codec<C>)
    ensures var s := Run(Init(), actions, codec);
            var packets := s.up.sent + s.client.queue;
            && |packets| == s.client.lastGuid == |s.issued|
            && (forall i :: 0 <= i < |packets| ==>
                  packets[i].guid == i + 1 && packets[i].methodId == s.issued[i].methodId && packets[i].content == s.issued[i].request)
            && (if s.client.status.Connected? then s.client.queue == [] else s.up.sent == [])
  {
    hide Flows, Matched, Worked, Pow256, Step;
    InitInv(codec);
    RunKeeps(Init(), actions, codec);
  }

  /** Each request context is finished at most once, in the order in which the services answered;
      the one of the call with guid g gets the answer that the service gave to that very request, and
      its closure runs if and only if the answer can be parsed. */
  lemma EndToEnd<C>(actions: seq<Action<C>>, codec: Codec<C>)
    ensures var s := Run(Init(), actions, codec);
            && |s.finished| <= |s.served|
            && (forall k :: 0 <= k < |s.finished| ==>
                  var f := s.finished[k];
                  && 1 <= f.guid <= |s.issued|
                  && var call := s.issued[f.guid - 1];
                  && f.context == call.context
                  && s.served[k] == Served(Job(f.guid, call.methodId, call.request), f.answer)
                  && f.ran == codec.parses(f.context, f.answer))
            && (forall i, j :: 0 <= i < j < |s.finished| ==> s.finished[i].guid != s.finished[j].guid)
  {
    hide Flows, Ordered, Accepted, Replies, Pow256, Step;
    InitInv(codec);
    RunKeeps(Init(), actions, codec);
    var s := Run(Init(), actions, codec);
    forall k | 0 <= k < |s.finished|
      ensures var f := s.finished[k];
              && 1 <= f.guid <= |s.issued|
              && var call := s.issued[f.guid - 1];
              && f.context == call.context
              && s.served[k] == Served(Job(f.guid, call.methodId, call.request), f.answer)
              && f.ran == codec.parses(f.context, f.answer)
    {
      assert FinishedBy(s, k, codec);
    }
    forall i, j | 0 <= i < j < |s.finished| ensures s.finished[i].guid != s.finished[j].guid {
      ServedOnce(s, codec, i, j);
      assert FinishedBy(s, i, codec) && FinishedBy(s, j, codec);
    }
  }

  /** Every guid allocated is waiting or finished, and not both. */
  lemma EachGuidOnce<C>(actions: seq<Action<C>>, codec: Codec<C>, g: nat)
    ensures var s := Run(Init(), actions, codec);
            (g in s.client.contexts <==> 1 <= g <= s.client.lastGuid && forall k :: 0 <= k < |s.finished| ==> s.finished[k].guid != g)
  {
    hide Flows, Worked, Replies, Pow256, Step;
    InitInv(codec);
    RunKeeps(Init(), actions, codec);
    var s := Run(Init(), actions, codec);
    if 1 <= g <= |s.issued| { assert g in s.client.contexts <==> Waiting(s, g); }
  }

  /** Nothing is on its way any more: every byte has arrived, both ends have read until RecvPacket
      found nothing, and every job has been answered. */
  ghost predicate Quiet<C>(s: System<C>)
  {
    && s.client.status.Connected? && s.server.pending == []
    && s.up.coming == [] && s.down.coming == []
    && !s.up.parser.state.Done? && !s.down.parser.state.Done?
    && Take(s.up).1.None? && Take(s.down).1.None?
  }

  /** Then the only calls still waiting are those whose request the server could not use. */
  lemma NothingLost<C>(actions: seq<Action<C>>, codec: Codec<C>, g: nat)
    requires Quiet(Run(Init(), actions, codec))
    ensures var s := Run(Init(), actions, codec);
            (g in s.client.contexts <==> 1 <= g <= |s.issued| && !codec.accepts(s.issued[g - 1].methodId, s.issued[g - 1].request))
  {
    hide Flows, Pow256, Step, Take, Accepted, Replies;
    InitInv(codec);
    RunKeeps(Init(), actions, codec);
    var s := Run(Init(), actions, codec);
    QuietAll(s, codec, g);
  }

  lemma QuietAll<C>(s: System<C>, codec: Codec<C>, g: nat)
    requires Inv(s, codec) && Quiet(s)
    ensures g in s.client.contexts <==> 1 <= g <= |s.issued| && !codec.accepts(s.issued[g - 1].methodId, s.issued[g - 1].request)
  {
    hide Flows, Pow256, Take, Accepted, Replies;
    TakenAll(s.up);
    TakenAll(s.down);
    assert s.up.got == |Requests(s.issued)|;
    assert s.down.sent[..s.down.got] == s.down.sent;
    assert |s.finished| == |s.served|;
    if 1 <= g <= |s.issued| {
      var job := JobOf(s.issued, g - 1);
      if codec.accepts(job.methodId, job.request) {
        AcceptedAll(s.issued, s.up.got, codec, g - 1);
        assert job in multiset(s.server.pending) + multiset(Jobs(s.served));
        var k :| 0 <= k < |s.served| && Jobs(s.served)[k] == job;
        assert FinishedBy(s, k, codec);
        assert !Waiting(s, g);
      } else {
        forall k | 0 <= k < |s.finished| ensures s.finished[k].guid != g {
          assert FinishedBy(s, k, codec);
          assert Jobs(s.served)[k] in Jobs(s.served);
          assert s.served[k].job in multiset(s.server.pending) + multiset(Jobs(s.served));
          AcceptedGuid(s.issued, s.up.got, codec, s.served[k].job);
        }
        assert Waiting(s, g);
      }
    }
  }

  // ---- calls made by the session ----

  /** The contexts of all calls the session has made are still there. */
  ghost predicate AllWait<C>(s: Server<C>)
  {
    forall g :: g in s.contexts <==> 1 <= g <= s.lastGuid
  }

  lemma AllWaitKept<C>(s: System<C>, a: Action<C>, codec: Codec<C>)
    requires Inv(s, codec) && AllWait(s.server) && Possible(s, a)
    ensures AllWait(Step(s, a, codec).server)
  {
    hide Flows, Matched, Worked, Take, Pow256;
    if a.ServerReads? {
      TakeFlows(s.up);
      if Take(s.up).1.Some? { NextRequest(s); }
    }
  }

  lemma {:induction false} AllWaitRun<C>(s: System<C>, actions: seq<Action<C>>, codec: Codec<C>)
    requires Inv(s, codec) && AllWait(s.server)
    ensures AllWait(Run(s, actions, codec).server)
    decreases |actions|
  {
    hide Inv, Step, Possible, AllWait;
    if actions != [] {
      if Possible(s, actions[0]) {
        StepKeeps(s, actions[0], codec);
        AllWaitKept(s, actions[0], codec);
        AllWaitRun(Step(s, actions[0], codec), actions[1..], codec);
      } else {
        AllWaitRun(s, actions[1..], codec);
      }
    }
  }

  /** The channel drops every packet with a method id, so no call that the session makes is ever
      answered: its context stays, in every run. */
  lemma SessionCallsWait<C>(actions: seq<Action<C>>, codec: Codec<C>, g: nat)
    ensures var s := Run(Init(), actions, codec); g in s.server.contexts <==> 1 <= g <= s.server.lastGuid
  {
    hide Inv, Step;
    InitInv(codec);
    AllWaitRun(Init(), actions, codec);
  }
}
