/** src/rpc/packet_parser.cc as it is written, over the block lists of a socket
    (src/core/socket.h:52-57). */
module PacketParsers {
  import opened Buffers
  import opened Packets

  /** BufferList::Read into a fresh object of n bytes. */
  method ReadBytes(list: BufferList, n: nat) returns (bytes: seq<Byte>)
    requires list.Valid() && n <= |list.Contents()|
    modifies list.Repr()
    ensures list.Valid() && list.Repr() <= old(list.Repr()) && forall b :: b in list.Held() ==> b in old(list.Held())
    ensures bytes == old(list.Contents())[..n] && list.Contents() == old(list.Contents())[n..]
  {
    hide Distinct, BufferList.Linked, BufferList.Contents;
    var to := new Byte[n];
    ghost var held := list.Held();
    var count := list.Read(to, n);
    bytes := to[..];
    assert forall b :: b in list.Held() ==> b in held;
  }

  /** BufferList::Write, whose answer nobody looks at. */
  method WriteBytes(list: BufferList, bytes: seq<Byte>)
    requires list.Valid()
    modifies list.Repr()
    ensures list.Valid() && forall o :: o in list.Repr() ==> o in old(list.Repr()) || fresh(o)
    ensures forall b :: b in list.Held() ==> b in old(list.Held()) || (fresh(b) && fresh(b.data))
    ensures list.Contents() == old(list.Contents()) + bytes
  {
    hide Distinct, BufferList.Linked, BufferList.Contents;
    ghost var held := list.Held();
    assert forall b: Buffer :: b in held ==> (b as object) in list.Repr() && (b.data as object) in list.Repr();
    var n, batch := list.Write(bytes);
    assert forall b :: b in list.Held() ==> b in held || b in batch;
  }

  lemma Outside(lists: set<BufferList>, l: BufferList, o: object)
    requires l in lists && World(lists, l.pool) && o is PacketParser
    ensures o !in l.Repr() && l.Valid()
    ensures forall x :: x in lists && x != l ==>
              x !in l.Repr() && NoShare(x.chain, l.Held()) && forall b :: b in x.chain ==> b !in l.Repr() && b.data !in l.Repr()
  {
    hide Flat, Distinct, BufferList.Linked, BufferList.Contents;
    HeldApart(lists, l.pool, l);
  }

  /** The other lists, after an operation on `l` that kept to its own blocks. */
  twostate lemma Kept(lists: set<BufferList>, new l: BufferList)
    requires old(allocated(l)) && old(allocated(l.pool)) && l in lists && old(World(lists, l.pool)) && l.Valid()
    requires forall b :: b in l.Held() ==> b in old(l.Held()) || (fresh(b) && fresh(b.data))
    requires forall x :: x in lists && x != l ==> BlocksUntouched(x) && NoShare(x.chain, old(l.Held()))
    ensures World(lists, l.pool) && forall x :: x in lists && x != l ==> x.Contents() == old(x.Contents())
  {
    hide Flat, Distinct, BufferList.Linked, BlocksUntouched, BufferList.Contents;
    ghost var held := old(l.Held());
    WorldKept(lists, l.pool, l, held);
  }

  class PacketParser {
    const input: BufferList   // the socket's read_list_
    const output: BufferList  // the socket's write_list_
    var state: State
    var packet: Packet

    ghost function Model(): Parser
      reads this
    {
      Parser(state, packet)
    }

    constructor (input: BufferList, output: BufferList)
      ensures this.input == input && this.output == output
      ensures Model() == Parser(Header, Packet(0, 0, 0, 0, []))
    {
      this.input, this.output := input, output;
      state, packet := Header, Packet(0, 0, 0, 0, []);
    }

    /** `lists` are the lists that share the blocks: the others are left alone. */
    method RecvPacket(ghost lists: set<BufferList>) returns (ok: bool)
      requires !state.Done? && input in lists && World(lists, input.pool)
      modifies this, input.Repr()
      ensures World(lists, input.pool) && forall x :: x in lists && x != input ==> x.Contents() == old(x.Contents())
      ensures input.Repr() <= old(input.Repr())
      ensures Received(Model(), input.Contents(), ok) == Recv(old(Model()), old(input.Contents()))
      ensures !state.Done?
    {
      hide Flat, Distinct, BufferList.Linked, BufferList.Shaped, BufferList.Contents, BufferList.Repr,
        BufferList.Valid, Recv, NoShare, BufferList.Held, World;
      Outside(lists, input, this);
      ok := Parse();
      Kept(lists, input);
    }

    /** The loop over `state`. */
    method Parse() returns (ok: bool)
      requires !state.Done? && input.Valid() && this !in input.Repr()
      modifies this, input.Repr()
      ensures input.Valid() && input.Repr() <= old(input.Repr()) && forall b :: b in input.Held() ==> b in old(input.Held())
      ensures Received(Model(), input.Contents(), ok) == Recv(old(Model()), old(input.Contents()))
      ensures !state.Done?
    {
      hide BufferList.Linked, BufferList.Shaped, BufferList.End, Distinct, BufferList.Contents, BufferList.Repr,
        BufferList.Held, DecodeMeta;
      ghost var result := Recv(Model(), input.Contents());
      var done := false;
      while !done
        invariant input.Valid() && input.Repr() <= old(input.Repr()) && forall b :: b in input.Held() ==> b in old(input.Held())
        invariant if done then state.Header? && result == Received(Model(), input.Contents(), true)
                  else if state.Done? then result == Received(Parser(Header, packet), input.Contents(), true)
                  else Recv(Model(), input.Contents()) == result
        decreases !done, if state.Header? then 2 else if state.Body? then 1 else 0
      {
        match state
        case Header =>
          var readSize := input.ReadableSize();
          if readSize < META_SIZE {
            return false;
          }
          ReadMeta();
          if packet.magic != MAGIC {
            return false;
          }
          state := Body;
        case Body =>
          var readSize := input.ReadableSize();
          if packet.size > readSize {
            return false;
          }
          var content := ReadBytes(input, packet.size);
          packet := packet.(content := content);
          state := Done;
        case Done =>
          state := Header;
          done := true;
      }
      ok := true;
    }

    /** The four reads of the header. */
    method ReadMeta()
      requires input.Valid() && |input.Contents()| >= META_SIZE && this !in input.Repr()
      modifies this`packet, input.Repr()
      ensures input.Valid() && input.Repr() <= old(input.Repr()) && forall b :: b in input.Held() ==> b in old(input.Held())
      ensures packet == DecodeMeta(old(input.Contents())[..META_SIZE], old(packet).content)
      ensures input.Contents() == old(input.Contents())[META_SIZE..]
    {
      hide BufferList.Linked, BufferList.Shaped, BufferList.End, Distinct, BufferList.Contents, BufferList.Repr,
        BufferList.Held, FromBytes;
      MetaParts(input.Contents());
      var magic := ReadBytes(input, 1);
      var guid := ReadBytes(input, 8);
      var methodId := ReadBytes(input, 8);
      var size := ReadBytes(input, 4);
      packet := Packet(magic[0], FromBytes(guid), FromBytes(methodId), FromBytes(size), packet.content);
    }

    method SendPacket(ghost lists: set<BufferList>, p: Packet)
      requires output in lists && World(lists, output.pool)
      modifies output.Repr()
      ensures World(lists, output.pool) && forall x :: x in lists && x != output ==> x.Contents() == old(x.Contents())
      ensures forall o :: o in output.Repr() ==> o in old(output.Repr()) || fresh(o)
      ensures output.Contents() == old(output.Contents()) + Encode(p)
    {
      hide Flat, Distinct, BufferList.Linked, BufferList.Shaped, BufferList.Contents, BufferList.Repr,
        BufferList.Valid, Encode, NoShare, BufferList.Held, World;
      Outside(lists, output, this);
      WritePacket(p);
      Kept(lists, output);
    }

    /** The five writes. */
    method WritePacket(p: Packet)
      requires output.Valid()
      modifies output.Repr()
      ensures output.Valid() && forall o :: o in output.Repr() ==> o in old(output.Repr()) || fresh(o)
      ensures forall b :: b in output.Held() ==> b in old(output.Held()) || (fresh(b) && fresh(b.data))
      ensures output.Contents() == old(output.Contents()) + Encode(p)
    {
      hide BufferList.Linked, BufferList.Shaped, BufferList.End, Distinct, BufferList.Contents, BufferList.Repr,
        BufferList.Held, ToBytes;
      WriteBytes(output, [p.magic]);
      WriteBytes(output, ToBytes(p.guid, 8));
      WriteBytes(output, ToBytes(p.methodId, 8));
      WriteBytes(output, ToBytes(p.size, 4));
      WriteBytes(output, p.content);
      assert output.Contents() == old(output.Contents()) + (EncodeMeta(p) + p.content);
    }
  }

  /** Reading 1, 8, 8 and 4 bytes in turn. */
  lemma MetaParts(all: seq<Byte>)
    requires |all| >= META_SIZE
    ensures all[..1][0] == all[..META_SIZE][0]
    ensures all[1..][..8] == all[..META_SIZE][1..9]
    ensures all[1..][8..][..8] == all[..META_SIZE][9..17]
    ensures all[1..][8..][8..][..4] == all[..META_SIZE][17..21]
    ensures all[1..][8..][8..][4..] == all[META_SIZE..]
  {
  }
}
