/** RpcChannel (src/rpc/rpc_channel.cc) and RpcSession (src/rpc/rpc_session.cc) as they are written,
    over the parsers of their sockets.  `lists` are all block lists that share one pool. */
module RpcObjects {
  import opened Buffers
  import opened Packets
  import opened PacketParsers
  import opened Rpc

  ghost predicate Usable(parser: PacketParser, lists: set<BufferList>)
    reads parser, lists, set l | l in lists :: l.pool, set l: BufferList, i: int | l in lists && 0 <= i < |l.chain| :: l.chain[i]
  {
    && !parser.state.Done? && parser.input != parser.output
    && parser.input in lists && parser.output in lists && parser.output.pool == parser.input.pool
    && World(lists, parser.input.pool)
  }

  lemma EncodeOne(p: Packet)
    ensures EncodeAll([p]) == Encode(p)
  {
    assert Encode(p) + EncodeAll([]) == Encode(p);
  }

  class RpcChannel<C> {
    const parser: PacketParser
    var status: Status  // the socket's
    var allocateGuid: nat
    var packetQueue: seq<Packet>
    var requestContext: map<nat, C>

    ghost function Model(): Client<C>
      reads this
    {
      Client(status, allocateGuid, packetQueue, requestContext)
    }

    constructor (parser: PacketParser)
      ensures this.parser == parser && Model() == Client(Idle, 0, [], map[])
    {
      this.parser := parser;
      status, allocateGuid, packetQueue, requestContext := Idle, 0, [], map[];
    }

    lemma Apart(lists: set<BufferList>)
      requires Usable(parser, lists)
      ensures this !in parser.input.Repr() && parser !in parser.input.Repr()
      ensures this !in parser.output.Repr() && parser !in parser.output.Repr()
    {
    }

    method PushRequestToQueue(call: Call<C>)
      modifies this
      ensures Model() == Pushed(old(Model()), call)
    {
      allocateGuid := allocateGuid + 1;
      var callGuid := allocateGuid;
      packetQueue := packetQueue + [NewPacket(callGuid, call.methodId, call.request)];
      requestContext := requestContext[callGuid := call.context];
    }

    /** Socket::Connect; `refused` is the outcome of ConnectAsync. */
    method Connect(refused: bool)
      modifies this
      ensures Model() == old(Model()).(status :=
                if old(status) != Idle then old(status) else if refused then Closed else Connecting)
    {
      if status != Idle {
        return;
      }
      status := Connecting;
      if refused {
        status := Closed;
      }
    }

    method CallMethod(ghost lists: set<BufferList>, call: Call<C>, refused: bool)
      requires Usable(parser, lists)
      modifies this, parser.output.Repr()
      ensures Usable(parser, lists) && parser.Model() == old(parser.Model())
      ensures var (client, packets) := Called(old(Model()), call, refused);
              Model() == client && parser.output.Contents() == old(parser.output.Contents()) + EncodeAll(packets)
      ensures forall x :: x in lists && x != parser.output ==> x.Contents() == old(x.Contents())
      // a closed channel does nothing; otherwise the call gets the next guid, and its context waits
      ensures status == if old(status) == Idle then (if refused then Closed else Connecting) else old(status)
      ensures allocateGuid == if old(status) == Closed then old(allocateGuid) else old(allocateGuid) + 1
      ensures requestContext == if old(status) == Closed then old(requestContext) else old(requestContext)[allocateGuid := call.context]
      // the packet is sent on a connected channel, and queued before that
      ensures packetQueue == old(packetQueue) +
                if old(status) == Closed || old(status) == Connected then []
                else [NewPacket(allocateGuid, call.methodId, call.request)]
      ensures parser.output.Contents() == old(parser.output.Contents()) +
                if old(status) == Connected then Encode(NewPacket(allocateGuid, call.methodId, call.request)) else []
    {
      hide Distinct, NoShare, World, Encode, Flat, BufferList.Linked, BufferList.Shaped, BufferList.Contents,
        BufferList.Repr, BufferList.Valid, BufferList.Held;
      var status := this.status;
      if status == Closed {
        return;
      }
      if status == Connected {
        allocateGuid := allocateGuid + 1;
        var callGuid := allocateGuid;
        var packet := NewPacket(callGuid, call.methodId, call.request);
        requestContext := requestContext[callGuid := call.context];
        Apart(lists);
        assert Encode(packet) == EncodeAll([packet]) by { EncodeOne(packet); }
        parser.SendPacket(lists, packet);
        return;
      }
      if status == Idle {
        PushRequestToQueue(call);
        Connect(refused);
      }
      if status == Connecting {
        PushRequestToQueue(call);
      }
    }

    /** The queue goes out, oldest first. */
    method OnConnect(ghost lists: set<BufferList>, ok: bool)
      requires Usable(parser, lists)
      modifies this, parser.output.Repr()
      ensures Usable(parser, lists) && parser.Model() == old(parser.Model())
      ensures Model() == old(Model()).(queue := if ok then [] else old(packetQueue))
      ensures parser.output.Contents() == old(parser.output.Contents()) + EncodeAll(if ok then old(packetQueue) else [])
      ensures forall x :: x in lists && x != parser.output ==> x.Contents() == old(x.Contents())
      ensures forall o :: o in parser.output.Repr() ==> o in old(parser.output.Repr()) || fresh(o)
    {
      hide Distinct, NoShare, Encode, Flat, BufferList.Linked, BufferList.Shaped, BufferList.Contents,
        BufferList.Repr, BufferList.Held, BufferList.End;
      if ok {
        while |packetQueue| > 0
          invariant Usable(parser, lists) && parser.Model() == old(parser.Model())
          invariant Model() == old(Model()).(queue := packetQueue)
          invariant parser.output.Contents() + EncodeAll(packetQueue) == old(parser.output.Contents()) + EncodeAll(old(packetQueue))
          invariant forall x :: x in lists && x != parser.output ==> x.Contents() == old(x.Contents())
          invariant forall o :: o in parser.output.Repr() ==> o in old(parser.output.Repr()) || fresh(o)
        {
          Apart(lists);
          Joined(parser.output.Contents(), packetQueue);
          parser.SendPacket(lists, packetQueue[0]);
          packetQueue := packetQueue[1..];
        }
      }
    }

    /** The first part of Socket::Out. */
    method Writable(ghost lists: set<BufferList>)
      requires Usable(parser, lists)
      modifies this, parser.output.Repr()
      ensures Usable(parser, lists) && parser.Model() == old(parser.Model())
      ensures var (client, packets) := if old(status) == Connecting then Opened(old(Model())) else (old(Model()), []);
              Model() == client && parser.output.Contents() == old(parser.output.Contents()) + EncodeAll(packets)
      ensures forall x :: x in lists && x != parser.output ==> x.Contents() == old(x.Contents())
      ensures allocateGuid == old(allocateGuid) && requestContext == old(requestContext)
      ensures old(status) == Connecting ==>
                && status == Connected && packetQueue == []
                && parser.output.Contents() == old(parser.output.Contents()) + EncodeAll(old(packetQueue))
      ensures old(status) != Connecting ==>
                && status == old(status) && packetQueue == old(packetQueue)
                && parser.output.Contents() == old(parser.output.Contents())
    {
      hide Distinct, NoShare, Encode, Flat, BufferList.Linked, BufferList.Shaped, BufferList.Contents,
        BufferList.Repr, BufferList.Held, BufferList.End, EncodeAll;
      Apart(lists);
      if status == Connecting {
        status := Connected;
        OnConnect(lists, true);
      } else {
        assert EncodeAll([]) == [] by { EncodeNone(); }
      }
    }

    /** The answers in the packets that are complete by now, and the contexts they finish. */
    method OnRead(ghost lists: set<BufferList>, parses: (C, seq<Byte>) -> bool) returns (finished: seq<Finished<C>>)
      requires Usable(parser, lists)
      modifies this, parser, parser.input.Repr()
      ensures Usable(parser, lists)
      ensures (Model(), finished, parser.Model(), parser.input.Contents())
           == Hears(old(Model()), old(parser.Model()), old(parser.input.Contents()), parses)
      ensures forall x :: x in lists && x != parser.input ==> x.Contents() == old(x.Contents())
    {
      hide Distinct, NoShare, Encode, Flat, BufferList.Linked, BufferList.Shaped, BufferList.Contents,
        BufferList.Repr, BufferList.Held, BufferList.End, Recv, Hears;
      finished := [];
      Apart(lists);
      ghost var parser0, content := parser.Model(), parser.input.Contents();
      ghost var all := Hears(Model(), parser0, content, parses);
      assert [] + all.1 == all.1;
      HearsNext(Model(), parser0, content, parses, finished);
      var ok := parser.RecvPacket(lists);
      while ok
        invariant Usable(parser, lists) && parser.input.Repr() <= old(parser.input.Repr())
        invariant !parser0.state.Done? && Received(parser.Model(), parser.input.Contents(), ok) == Recv(parser0, content)
        invariant var (client, more, p, rest) := Hears(Model(), parser0, content, parses); all == (client, finished + more, p, rest)
        invariant forall x :: x in lists && x != parser.input ==> x.Contents() == old(x.Contents())
        decreases |content|, if parser0.state.Body? then 1 else 0
      {
        HearsNext(Model(), parser0, content, parses, finished);
        RecvProgress(parser0, content);
        Apart(lists);
        assert finished + [] == finished;
        var packet := parser.packet;
        if packet.methodId != 0 {
        } else if packet.guid !in requestContext {
        } else {
          var context := requestContext[packet.guid];
          var ret := parses(context, packet.content);
          requestContext := requestContext - {packet.guid};
          finished := finished + [Finished(packet.guid, context, packet.content, ret)];
        }
        parser0, content := parser.Model(), parser.input.Contents();
        ok := parser.RecvPacket(lists);
      }
      HearsNext(Model(), parser0, content, parses, finished);
    }
  }

  class RpcSession<C> {
    const parser: PacketParser
    var status: Status  // the socket's: Connected from the start
    var allocateGuid: nat
    var requestContext: map<nat, C>
    var pending: seq<Job>  // the requests that services hold a closure of onResponse for

    ghost function Model(): Server<C>
      reads this
    {
      Server(allocateGuid, requestContext, pending)
    }

    constructor (parser: PacketParser)
      ensures this.parser == parser && status == Connected && Model() == Server(0, map[], [])
    {
      this.parser := parser;
      status, allocateGuid, requestContext, pending := Connected, 0, map[], [];
    }

    lemma Apart(lists: set<BufferList>)
      requires Usable(parser, lists)
      ensures this !in parser.input.Repr() && parser !in parser.input.Repr()
      ensures this !in parser.output.Repr() && parser !in parser.output.Repr()
    {
    }

    /** A request whose method is unknown or whose bytes cannot be parsed goes unanswered. */
    method RunService(packet: Packet, accepts: (nat, seq<Byte>) -> bool)
      requires packet.methodId != 0
      modifies this`pending
      ensures Model() == Asked(old(Model()), packet, accepts).0
    {
      if !accepts(packet.methodId, packet.content) {
        return;
      }
      pending := pending + [Job(packet.guid, packet.methodId, packet.content)];
    }

    method OnRead(ghost lists: set<BufferList>, accepts: (nat, seq<Byte>) -> bool) returns (finished: seq<Finished<C>>)
      requires Usable(parser, lists)
      modifies this, parser, parser.input.Repr()
      ensures Usable(parser, lists) && status == old(status)
      ensures (Model(), finished, parser.Model(), parser.input.Contents())
           == Serves(old(Model()), old(parser.Model()), old(parser.input.Contents()), accepts)
      ensures forall x :: x in lists && x != parser.input ==> x.Contents() == old(x.Contents())
    {
      hide Distinct, NoShare, Encode, Flat, BufferList.Linked, BufferList.Shaped, BufferList.Contents,
        BufferList.Repr, BufferList.Held, BufferList.End, Recv, Serves;
      finished := [];
      Apart(lists);
      ghost var parser0, content := parser.Model(), parser.input.Contents();
      ghost var all := Serves(Model(), parser0, content, accepts);
      assert [] + all.1 == all.1;
      ServesNext(Model(), parser0, content, accepts, finished);
      var ok := parser.RecvPacket(lists);
      while ok
        invariant Usable(parser, lists) && parser.input.Repr() <= old(parser.input.Repr()) && status == old(status)
        invariant !parser0.state.Done? && Received(parser.Model(), parser.input.Contents(), ok) == Recv(parser0, content)
        invariant var (server, more, p, rest) := Serves(Model(), parser0, content, accepts); all == (server, finished + more, p, rest)
        invariant forall x :: x in lists && x != parser.input ==> x.Contents() == old(x.Contents())
        decreases |content|, if parser0.state.Body? then 1 else 0
      {
        ServesNext(Model(), parser0, content, accepts, finished);
        RecvProgress(parser0, content);
        Apart(lists);
        assert finished + [] == finished;
        var packet := parser.packet;
        if packet.methodId != 0 {
          RunService(packet, accepts);
        } else if packet.guid !in requestContext {
        } else {
          var context := requestContext[packet.guid];
          requestContext := requestContext - {packet.guid};
          finished := finished + [Finished(packet.guid, context, packet.content, true)];
        }
        parser0, content := parser.Model(), parser.input.Contents();
        ok := parser.RecvPacket(lists);
      }
      ServesNext(Model(), parser0, content, accepts, finished);
    }

    /** The i-th closure runs, and is gone. */
    method OnResponse(ghost lists: set<BufferList>, i: nat, answer: seq<Byte>)
      requires Usable(parser, lists) && i < |pending|
      modifies this, parser.output.Repr()
      ensures Usable(parser, lists) && parser.Model() == old(parser.Model()) && status == old(status)
      ensures var (server, packet) := Answered(old(Model()), i, answer);
              Model() == server && parser.output.Contents() == old(parser.output.Contents()) + Encode(packet)
      ensures forall x :: x in lists && x != parser.output ==> x.Contents() == old(x.Contents())
    {
      hide Distinct, NoShare, Encode, Flat, BufferList.Linked, BufferList.Shaped, BufferList.Contents,
        BufferList.Repr, BufferList.Held, BufferList.End;
      Apart(lists);
      var packet := NewPacket(pending[i].guid, 0, answer);
      parser.SendPacket(lists, packet);
      pending := pending[..i] + pending[i + 1..];
    }

    method CallMethod(ghost lists: set<BufferList>, call: Call<C>)
      requires Usable(parser, lists)
      modifies this, parser.output.Repr()
      ensures Usable(parser, lists) && parser.Model() == old(parser.Model()) && status == old(status)
      ensures var (server, packet) := CalledBack(old(Model()), call);
              if status == Closed then Model() == old(Model()) && parser.output.Contents() == old(parser.output.Contents())
              else Model() == server && parser.output.Contents() == old(parser.output.Contents()) + Encode(packet)
      ensures forall x :: x in lists && x != parser.output ==> x.Contents() == old(x.Contents())
    {
      hide Distinct, NoShare, Encode, Flat, BufferList.Linked, BufferList.Shaped, BufferList.Contents,
        BufferList.Repr, BufferList.Held, BufferList.End;
      Apart(lists);
      if status == Closed {
        return;
      }
      allocateGuid := allocateGuid + 1;
      var callGuid := allocateGuid;
      var packet := NewPacket(callGuid, call.methodId, call.request);
      requestContext := requestContext[callGuid := call.context];
      parser.SendPacket(lists, packet);
    }
  }

  lemma EncodeNone()
    ensures EncodeAll([]) == []
  {
  }

  lemma Joined(output: seq<Byte>, queue: seq<Packet>)
    requires queue != []
    ensures output + EncodeAll(queue) == (output + Encode(queue[0])) + EncodeAll(queue[1..])
  {
  }
}
