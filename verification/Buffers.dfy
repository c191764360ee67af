/** src/base/buffer.h, src/base/buffer.cc and src/base/object_pool.h: byte queues made of linked
    4096-byte blocks that come from, and go back to, one shared free list. */
module Buffers {
  type Byte = x: int | 0 <= x < 256

  const BLOCK: nat := 4096
  const BATCH: nat := 100

  class Buffer {
    const data: array<Byte>
    var next: Buffer?

    constructor ()
      ensures fresh(data) && data.Length == BLOCK && next == null
    {
      data := new Byte[BLOCK];
      next := null;
    }

    /** memset(data_, '0', ...): the link is left as it was. */
    method Reset()
      modifies data
      ensures forall i :: 0 <= i < data.Length ==> data[i] == 48
    {
      for i := 0 to data.Length
        invariant forall k :: 0 <= k < i ==> data[k] == 48
      {
        data[i] := 48;
      }
    }
  }

  ghost predicate Sized(bs: seq<Buffer>)
  {
    forall i :: 0 <= i < |bs| ==> bs[i].data.Length == BLOCK
  }

  /** No block twice, no memory shared, and every block of full size. */
  ghost predicate Distinct(bs: seq<Buffer>)
  {
    && Sized(bs)
    && (forall i, j :: 0 <= i < j < |bs| ==> bs[i] != bs[j] && bs[i].data != bs[j].data)
  }

  // ---- the pool ----

  class ObjectList {
    var freeList: seq<Buffer>

    constructor ()
      ensures Distinct(freeList) && |freeList| == BATCH
      ensures forall b :: b in freeList ==> fresh(b) && fresh(b.data)
    {
      freeList := [];
      new;
      ghost var batch := Allocate();
      assert freeList == batch;
    }

    method Allocate() returns (ghost batch: seq<Buffer>)
      modifies this
      ensures freeList == old(freeList) + batch
      ensures |batch| == BATCH && Distinct(batch) && forall b :: b in batch ==> fresh(b) && fresh(b.data)
    {
      batch := [];
      for i := 0 to BATCH
        invariant |batch| == i && freeList == old(freeList) + batch
        invariant Distinct(batch) && forall b :: b in batch ==> fresh(b) && fresh(b.data)
      {
        var obj := new Buffer();
        freeList := freeList + [obj];
        batch := batch + [obj];
      }
    }

    /** The first free block, or the first of a new batch. */
    method Get() returns (obj: Buffer, ghost batch: seq<Buffer>)
      modifies this
      ensures [obj] + freeList == old(freeList) + batch
      ensures if old(freeList) == [] then |batch| == BATCH else batch == []
      ensures Distinct(batch) && forall b :: b in batch ==> fresh(b) && fresh(b.data)
    {
      batch := [];
      if freeList == [] {
        batch := Allocate();
      }
      obj := freeList[0];
      freeList := freeList[1..];
    }

    /** The block is cleared and goes to the end of the free list. */
    method Free(obj: Buffer)
      modifies this, obj.data
      ensures freeList == old(freeList) + [obj]
      ensures forall i :: 0 <= i < obj.data.Length ==> obj.data[i] == 48
    {
      obj.Reset();
      freeList := freeList + [obj];
    }
  }

  // ---- the byte queue ----

  /** All the bytes of a chain of blocks, in order. */
  ghost function Flat(bs: seq<Buffer>): (s: seq<Byte>)
    requires Sized(bs)
    reads set b: Buffer | b in bs :: b.data
    ensures |s| == BLOCK * |bs|
  {
    if bs == [] then [] else Flat(bs[..|bs| - 1]) + bs[|bs| - 1].data[..]
  }

  lemma FlatLast(bs: seq<Buffer>)
    requires bs != [] && Sized(bs)
    ensures Flat(bs) == Flat(bs[..|bs| - 1]) + bs[|bs| - 1].data[..]
  {
  }

  lemma FlatFirst(bs: seq<Buffer>)
    requires bs != [] && Sized(bs)
    ensures Flat(bs) == bs[0].data[..] + Flat(bs[1..])
  {
    if |bs| > 1 {
      var init := bs[..|bs| - 1];
      FlatFirst(init);
      assert init[1..] == bs[1..][..|bs| - 2];
    }
  }

  /** memcpy */
  method CopyIn(dst: array<Byte>, at: nat, src: seq<Byte>)
    requires at + |src| <= dst.Length
    modifies dst
    ensures dst[..] == old(dst[..at]) + src + old(dst[at + |src|..])
  {
    for i := 0 to |src|
      invariant dst[..] == old(dst[..at]) + src[..i] + old(dst[at + i..])
    {
      dst[at + i] := src[i];
    }
  }

  /** What Read starts from. */
  datatype ReadStart = ReadStart(content: seq<Byte>, before: seq<Byte>, blocks: seq<Buffer>, free: seq<Buffer>,
    readInx: nat, readSize: nat, writeSize: nat)

  class BufferList {
    const pool: ObjectList
    var readInx: nat
    var writeInx: nat
    var head: Buffer
    var read: Buffer
    var write: Buffer
    var writeSize: nat
    var readSize: nat
    ghost var chain: seq<Buffer>  // the blocks from `read` to `write`

    /** The blocks of this list and the free ones. */
    ghost function Held(): seq<Buffer>
      reads this, pool
    {
      chain + pool.freeList
    }

    /** Everything an operation on this list may touch. */
    ghost function Repr(): set<object>
      reads this, pool
    {
      {this, pool} + (set b: Buffer | b in Held() :: b as object) + (set b: Buffer | b in Held() :: b.data as object)
    }

    ghost predicate Linked()
      reads this, chain
    {
      && chain != []
      && head == read == chain[0] && write == chain[|chain| - 1]
      && (forall i :: 0 <= i < |chain| - 1 ==> chain[i].next == chain[i + 1])
    }

    ghost predicate Shaped()
      reads this
    {
      chain != [] && Sized(chain) && readInx <= End() <= BLOCK * |chain|
    }

    ghost predicate Valid()
      reads this, chain, pool
    {
      && Shaped() && Distinct(Held()) && Linked()
      && readInx < BLOCK && writeInx < BLOCK
      && (|chain| == 1 ==> readInx <= writeInx)
      && writeSize - readSize == End() - readInx
    }

    /** Where writing stands, counted from the start of the chain. */
    ghost function End(): int
      reads this
    {
      BLOCK * (|chain| - 1) + writeInx
    }

    lemma ChainDistinct()
      requires Distinct(Held())
      ensures Distinct(chain)
    {
      forall i | 0 <= i < |chain| ensures chain[i] == Held()[i] {}
    }

    /** The bytes written and not yet read. */
    ghost function Contents(): seq<Byte>
      reads this, set b: Buffer | b in chain :: b.data
      requires Shaped()
    {
      Flat(chain)[readInx..End()]
    }

    constructor (pool: ObjectList)
      requires Distinct(pool.freeList)
      modifies pool
      ensures this.pool == pool && Valid() && Contents() == []
      ensures forall b :: b in Held() && b !in old(pool.freeList) ==> fresh(b) && fresh(b.data)
      ensures old(pool.freeList) <= Held()
    {
      this.pool := pool;
      readInx, writeInx, writeSize, readSize := 0, 0, 0, 0;
      var block;
      ghost var batch;
      block, batch := pool.Get();
      head, read, write := block, block, block;
      chain := [block];
      assert (old(pool.freeList) + batch)[0] == block;
    }

    /** What the first block holds to read. */
    ghost function Current(): int
      reads this
    {
      if |chain| == 1 then writeInx - readInx else BLOCK - readInx
    }

    method ReadableSize() returns (n: nat)
      requires Valid()
      ensures n == |Contents()|
    {
      n := writeSize - readSize;
    }

    method WriteableSize() returns (n: nat)
      requires Valid()
      ensures 0 < n == BLOCK - writeInx
    {
      n := BLOCK - writeInx;
    }

    /** What can be read without leaving the first block: something, if anything is readable. */
    method CurrentBufferReadSize() returns (n: nat)
      requires Valid()
      ensures n == Current()
      ensures n <= |Contents()| && (Contents() != [] ==> n > 0)
    {
      ChainDistinct();
      if read == write {
        assert |chain| == 1;
        n := writeInx - readInx;
      } else {
        n := BLOCK - readInx;
      }
    }

    /** A buffer has been filled: put a new one at the end. */
    method AppendBlock() returns (ghost batch: seq<Buffer>)
      requires Distinct(Held()) && Linked()
      modifies `write, `writeInx, `chain, write`next, pool
      ensures Distinct(Held()) && Linked() && Held() == old(Held()) + batch
      ensures chain == old(chain) + [write] && writeInx == 0
      ensures if old(pool.freeList) == [] then |batch| == BATCH else batch == []
      ensures forall b :: b in batch ==> fresh(b) && fresh(b.data)
    {
      ChainDistinct();
      ghost var free := pool.freeList;
      var buffer;
      buffer, batch := pool.Get();
      write.next := buffer;
      write := buffer;
      writeInx := 0;
      chain := chain + [buffer];
      assert Held() == old(chain) + ([buffer] + pool.freeList) == old(chain) + (free + batch) == old(Held()) + batch;
    }

    /** The unread bytes once `n` more bytes of the last block count as written. */
    ghost function Window(n: nat): seq<Byte>
      requires Valid() && writeInx + n <= BLOCK
      reads this, chain, pool, set b: Buffer | b in chain :: b.data
    {
      ChainDistinct();
      Flat(chain)[readInx..End() + n]
    }

    method WriteAdvance(n: nat) returns (ghost batch: seq<Buffer>)
      requires Valid() && writeInx + n <= BLOCK
      modifies this, write`next, pool
      ensures Valid() && Contents() == old(Window(n))
      ensures writeSize == old(writeSize) + n && readSize == old(readSize)
      ensures Held() == old(Held()) + batch && forall b :: b in batch ==> fresh(b) && fresh(b.data)
      ensures if old(writeInx) + n < BLOCK then batch == [] && chain == old(chain)
              else chain == old(chain) + [write] && (old(pool.freeList) == [] || batch == [])
    {
      hide Flat;
      ChainDistinct();
      writeInx := writeInx + n;
      writeSize := writeSize + n;
      batch := [];
      if writeInx == BLOCK {
        batch := AppendBlock();
        ChainDistinct();
        FlatLast(chain);
        assert chain[..|chain| - 1] == old(chain);
      }
    }

    /** memcpy(WritePoint(), from, ...) */
    method CopyToWritePoint(bytes: seq<Byte>)
      requires Valid() && writeInx + |bytes| <= BLOCK
      modifies write.data
      ensures Valid() && Window(|bytes|) == old(Contents()) + bytes
    {
      ChainDistinct();
      ghost var before := Flat(chain);
      CopyIn(write.data, writeInx, bytes);
      assert Flat(chain[..|chain| - 1]) == old(Flat(chain[..|chain| - 1]));
      assert Flat(chain)[..End() + |bytes|] == before[..End()] + bytes;
      assert Flat(chain)[readInx..End() + |bytes|] == Flat(chain)[..End() + |bytes|][readInx..];
    }

    /** The first buffer has been read out: give it back. */
    method DropBlock()
      requires Distinct(Held()) && Linked() && |chain| > 1
      modifies `read, `head, `readInx, `chain, pool, read.data
      ensures Distinct(Held()) && Linked()
      ensures chain == old(chain)[1..] && readInx == 0
      ensures Sized(old(chain)) && Sized(chain) && Flat(chain) == old(Flat(chain))[BLOCK..]
      ensures pool.freeList == old(pool.freeList) + [old(read)]
    {
      ChainDistinct();
      FlatFirst(chain);
      var buffer := read;
      assert chain[0].next == chain[1];
      read := read.next;
      head := read;
      readInx := 0;
      chain := chain[1..];
      pool.Free(buffer);
      Rotate(old(Held()));
      assert Held() == old(Held())[1..] + [old(Held())[0]];
      ChainDistinct();
    }

    /** Drops n readable bytes, and keeps the list intact exactly if they all are in the first block:
        beyond its end no block is given back, and the next reader would look outside the block. */
    method ReadAdvance(n: nat)
      requires Valid() && n <= |Contents()|
      modifies this, pool, read.data
      ensures Valid() <==> n <= old(Current())
      ensures Valid() ==> Contents() == old(Contents())[n..]
      ensures readSize == old(readSize) + n && writeSize == old(writeSize)
      ensures if old(readInx) + n == BLOCK
              then chain == old(chain)[1..] && pool.freeList == old(pool.freeList) + [old(read)] && readInx == 0
              else chain == old(chain) && pool.freeList == old(pool.freeList) && readInx == old(readInx) + n
    {
      hide Flat;
      ChainDistinct();
      LaterWindow(Flat(chain), readInx, End(), n);
      readInx := readInx + n;
      readSize := readSize + n;
      if readInx == BLOCK {
        DropBlock();
      }
    }

    /** memcpy into the current block, then WriteAdvance. */
    method WriteSome(bytes: seq<Byte>) returns (ghost batch: seq<Buffer>)
      requires Valid() && writeInx + |bytes| <= BLOCK
      modifies this, pool, write, write.data
      ensures Valid() && Contents() == old(Contents()) + bytes
      ensures writeSize == old(writeSize) + |bytes| && readSize == old(readSize)
      ensures Held() == old(Held()) + batch && forall b :: b in batch ==> fresh(b) && fresh(b.data)
    {
      CopyToWritePoint(bytes);
      batch := WriteAdvance(|bytes|);
    }

    /** Appends all of `from`, and says so. */
    method Write(from: seq<Byte>) returns (total: nat, ghost batch: seq<Buffer>)
      requires Valid()
      modifies this, pool, Held(), set b: Buffer | b in Held() :: b.data
      ensures Valid() && Contents() == old(Contents()) + from && total == |from|
      ensures writeSize == old(writeSize) + |from| && readSize == old(readSize)
      ensures Held() == old(Held()) + batch && forall b :: b in batch ==> fresh(b) && fresh(b.data)
    {
      hide Distinct, Linked, Contents, Shaped, End;
      total, batch := 0, [];
      var n := |from|;
      ghost var more;
      while n > 0
        invariant n >= 0 && n + total == |from|
        invariant Valid() && Contents() == old(Contents()) + from[..total]
        invariant writeSize == old(writeSize) + total && readSize == old(readSize)
        invariant Held() == old(Held()) + batch && forall b :: b in batch ==> fresh(b) && fresh(b.data)
      {
        var room := WriteableSize();
        WriteHeld();
        Longer(old(Contents()), from, total, if n > room then room else n);
        if n > room {
          more := WriteSome(from[total..total + room]);
          n := n - room;
          total := total + room;
          batch := batch + more;
        } else {
          more := WriteSome(from[total..]);
          total := total + n;
          n := 0;
          batch := batch + more;
        }
      }
    }

    lemma WriteHeld()
      requires Valid()
      ensures write in Held() && read in chain && read in Held() && chain != [] && read == chain[0]
    {
      assert Held()[|chain| - 1] == write && Held()[0] == read;
    }

    /** The head of ReadPoint(): what memcpy takes from there. */
    lemma ReadPointBytes(n: nat)
      requires Valid() && n <= |Contents()| && readInx + n <= BLOCK
      ensures read.data.Length == BLOCK && read.data[readInx..readInx + n] == Contents()[..n]
    {
      ChainDistinct();
      FlatFirst(chain);
      assert Held()[0] == read;
      Prefix(Flat(chain), readInx, End(), n);
      assert Flat(chain)[readInx..readInx + n] == read.data[..][readInx..readInx + n];
    }

    /** memcpy from the current block, then ReadAdvance. */
    method ReadSome(to: array<Byte>, at: nat, k: nat, ghost content: seq<Byte>, ghost now: seq<Byte>)
      requires Valid() && content == Contents() && now == to[..] && at + k <= to.Length && k <= |content|
      requires k <= Current()
      requires forall b :: b in Held() ==> b.data != to
      modifies this, pool, to, read.data
      ensures Valid() && Contents() == content[k..]
      ensures to[..] == now[..at] + content[..k] + now[at + k..]
      ensures readSize == old(readSize) + k && writeSize == old(writeSize)
      ensures if old(readInx) + k < BLOCK then chain == old(chain) && pool.freeList == old(pool.freeList) && readInx == old(readInx) + k
              else chain == old(chain)[1..] && pool.freeList == old(pool.freeList) + [old(chain)[0]] && readInx == 0
    {
      hide Flat, Distinct, Linked, Shaped, Contents, End;
      WriteHeld();
      ReadPointBytes(k);
      assert forall b :: b in chain ==> b in Held();
      CopyIn(to, at, read.data[readInx..readInx + k]);
      ReadAdvance(k);
    }

    /** `count` bytes after the state `start`, `done` blocks were returned. */
    ghost predicate Reading(to: array<Byte>, start: ReadStart, count: nat, done: nat)
      reads this, chain, pool, to, set b: Buffer | b in chain :: b.data
    {
      && Valid() && count <= |start.content| && count <= |start.before| && Contents() == start.content[count..]
      && to[..] == start.content[..count] + start.before[count..]
      && readSize == start.readSize + count && writeSize == start.writeSize
      && start.readInx + count == BLOCK * done + readInx && done <= |start.blocks|
      && chain == start.blocks[done..] && pool.freeList == start.free + start.blocks[..done]
      && forall b :: b in start.blocks + start.free ==> b.data != to
    }

    /** The body of the loop of Read. */
    method ReadPiece(to: array<Byte>, count: nat, k: nat, ghost start: ReadStart, ghost done: nat) returns (ghost next: nat)
      requires Reading(to, start, count, done) && count + k <= to.Length && 0 < k <= |Contents()|
      requires k <= Current()
      requires forall b :: b in Held() ==> b.data != to
      modifies this, pool, to, read.data
      ensures Reading(to, start, count + k, next) && forall b :: b in Held() ==> b in old(Held())
    {
      hide Distinct, Linked, Contents, Shaped, End;
      WriteHeld();
      ghost var content, now := Contents(), to[..];
      Splice(start.content, start.before, count, k);
      Returned(start.blocks, start.free, done);
      ReadSome(to, count, k, content, now);
      next := if readInx == 0 then done + 1 else done;
    }

    /** Removes the first min(n, readable) bytes and stores them at the start of `to`; the blocks
        whose last byte is read, and no others, go back to the pool, once each. */
    method Read(to: array<Byte>, n: nat) returns (count: nat)
      requires Valid() && n <= to.Length
      requires forall b :: b in Held() ==> b.data != to
      modifies this, pool, to, set b: Buffer | b in Held() :: b.data
      ensures Valid() && count == if n <= |old(Contents())| then n else |old(Contents())|
      ensures to[..] == old(Contents())[..count] + old(to[count..])
      ensures Contents() == old(Contents())[count..]
      ensures readSize == old(readSize) + count && writeSize == old(writeSize)
      ensures var done := (old(readInx) + count) / BLOCK;
              done <= |old(chain)| && chain == old(chain)[done..] && pool.freeList == old(pool.freeList) + old(chain)[..done]
    {
      hide Distinct, Linked, Contents, Shaped, End, Reading, Held;
      ghost var start := ReadStart(Contents(), to[..], chain, pool.freeList, readInx, readSize, writeSize);
      count := 0;
      var left := n;
      ghost var done := 0;
      ReadingStart(to, start);
      while left > 0
        decreases left
        invariant left >= 0 && count + left == n
        invariant Reading(to, start, count, done)
      {
        ReadingFacts(to, start, count, done);
        var readable := ReadableSize();
        if readable == 0 {
          break;
        }
        var current := CurrentBufferReadSize();
        var k := if left > current then current else left;
        done := ReadPiece(to, count, k, start, done);
        count := count + k;
        left := left - k;
      }
      ReadingFacts(to, start, count, done);
    }

    lemma ReadingStart(to: array<Byte>, start: ReadStart)
      requires Valid() && start == ReadStart(Contents(), to[..], chain, pool.freeList, readInx, readSize, writeSize)
      requires forall b :: b in Held() ==> b.data != to
      ensures Reading(to, start, 0, 0) && forall b :: b in start.blocks ==> b in Held()
    {
      hide Distinct, Linked, Contents, Shaped, End;
      assert start.blocks + start.free == Held();
    }

    lemma ReadingFacts(to: array<Byte>, start: ReadStart, count: nat, done: nat)
      requires Reading(to, start, count, done)
      ensures Valid() && count <= |start.content| && count <= to.Length && |Contents()| == |start.content| - count
      ensures to[..] == start.content[..count] + start.before[count..] && Contents() == start.content[count..]
      ensures readSize == start.readSize + count && writeSize == start.writeSize
      ensures (start.readInx + count) / BLOCK == done <= |start.blocks|
      ensures chain == start.blocks[done..] && pool.freeList == start.free + start.blocks[..done]
      ensures read in start.blocks && forall b :: b in Held() ==> b in start.blocks + start.free && b.data != to
    {
      hide Distinct, Linked, Contents, Shaped, End;
      Gone(start.readInx + count, done, readInx);
      WriteHeld();
    }
  }

  // ---- any number of lists over one pool ----

  ghost predicate NoShare(xs: seq<Buffer>, ys: seq<Buffer>)
  {
    forall x, y :: x in xs && y in ys ==> x != y && x.data != y.data
  }

  lemma Combine(xs: seq<Buffer>, ys: seq<Buffer>)
    ensures Distinct(xs + ys) <==> Distinct(xs) && Distinct(ys) && NoShare(xs, ys)
  {
    var all := xs + ys;
    if Distinct(all) {
      forall i | 0 <= i < |xs| ensures xs[i] == all[i] {}
      forall i | 0 <= i < |ys| ensures ys[i] == all[|xs| + i] {}
    }
  }

  /** The lists are intact, and no block is in two of them or in one and free. */
  ghost predicate World(lists: set<BufferList>, pool: ObjectList)
    reads pool, lists, set l: BufferList, i: int | l in lists && 0 <= i < |l.chain| :: l.chain[i]
  {
    && (forall l :: l in lists ==> l.pool == pool && l.Valid())
    && (forall x, y :: x in lists && y in lists && x != y ==> NoShare(x.chain, y.chain))
  }

  twostate predicate BlocksUntouched(x: BufferList)
    reads x, x.chain, set b: Buffer | b in x.chain :: b.data
  {
    unchanged(x) && forall b :: b in x.chain ==> unchanged(b) && unchanged(b.data)
  }

  /** A list whose own blocks were left alone, when the free list only gained blocks that are not its own. */
  twostate lemma Untouched(x: BufferList)
    requires old(x.Valid()) && BlocksUntouched(x)
    requires Distinct(x.pool.freeList) && NoShare(x.chain, x.pool.freeList)
    ensures x.Valid() && x.Contents() == old(x.Contents())
  {
    Combine(x.chain, old(x.pool.freeList));
    Combine(x.chain, x.pool.freeList);
  }

  method NewList(lists: set<BufferList>, pool: ObjectList) returns (l: BufferList)
    requires World(lists, pool) && Distinct(pool.freeList)
    modifies pool
    ensures World(lists + {l}, pool) && l.Valid() && l.Contents() == []
    ensures forall x :: x in lists ==> x.Contents() == old(x.Contents())
  {
    hide Flat, BufferList.Linked, BufferList.Contents, Distinct;
    l := new BufferList(pool);
    Combine(l.chain, pool.freeList);
    forall x | x in lists
      ensures x.Valid() && NoShare(x.chain, l.chain) && NoShare(l.chain, x.chain) && x.Contents() == old(x.Contents())
    {
      Combine(x.chain, old(pool.freeList));
      assert forall b :: b in pool.freeList ==> b in l.Held();
      assert forall b :: b in l.chain ==> b in l.Held();
      Untouched(x);
    }
  }

  /** What another list sees of an operation that moved the blocks of `held` and new ones around. */
  twostate lemma OtherList(x: BufferList, new l: BufferList, new held: seq<Buffer>)
    requires old(allocated(l)) && old(allocated(held))
    requires old(x.Valid()) && x.pool == l.pool && BlocksUntouched(x)
    requires held == old(l.Held()) && NoShare(x.chain, held)
    requires Distinct(l.Held()) && forall b :: b in l.Held() ==> b in held || (fresh(b) && fresh(b.data))
    ensures x.Valid() && NoShare(x.chain, l.chain) && NoShare(l.chain, x.chain) && x.Contents() == old(x.Contents())
  {
    hide Flat, BufferList.Linked;
    assert NoShare(x.chain, l.Held());
    assert forall b :: b in l.chain || b in l.pool.freeList ==> b in l.Held();
    Combine(l.chain, l.pool.freeList);
    Untouched(x);
  }

  lemma HeldApart(lists: set<BufferList>, pool: ObjectList, l: BufferList)
    requires World(lists, pool) && l in lists
    ensures l.Valid() && l.pool == pool
    ensures forall x :: x in lists && x != l ==> NoShare(x.chain, l.Held())
  {
    forall x | x in lists && x != l ensures NoShare(x.chain, l.Held()) { Combine(x.chain, pool.freeList); }
  }

  /** The world after `l` was used. */
  twostate lemma WorldKept(lists: set<BufferList>, new pool: ObjectList, new l: BufferList, new held: seq<Buffer>)
    requires old(allocated(pool)) && old(allocated(l)) && old(allocated(held))
    requires old(World(lists, pool)) && l in lists && l.Valid() && l.pool == pool && held == old(l.Held())
    requires forall b :: b in l.Held() ==> b in held || (fresh(b) && fresh(b.data))
    requires forall x :: x in lists && x != l ==> NoShare(x.chain, held) && BlocksUntouched(x)
    ensures World(lists, pool)
    ensures forall x :: x in lists && x != l ==> x.Contents() == old(x.Contents())
  {
    hide Flat, Distinct, BufferList.Linked, NoShare, BlocksUntouched, BufferList.Contents;
    forall x | x in lists && x != l
      ensures x.Valid() && NoShare(x.chain, l.chain) && NoShare(l.chain, x.chain) && x.Contents() == old(x.Contents())
      ensures x.chain == old(x.chain)
    {
      SameChain(x);
      OtherList(x, l, held);
    }
  }

  twostate lemma SameChain(x: BufferList)
    requires BlocksUntouched(x)
    ensures x.chain == old(x.chain)
  {
  }

  /** Writing to one list: no other list sees it, and blocks stay owned as they were. */
  method WriteTo(lists: set<BufferList>, pool: ObjectList, l: BufferList, bytes: seq<Byte>)
    requires World(lists, pool) && l in lists
    modifies l, pool, l.Held(), set b: Buffer | b in l.Held() :: b.data
    ensures World(lists, pool)
    ensures l.Contents() == old(l.Contents()) + bytes
    ensures forall x :: x in lists && x != l ==> x.Contents() == old(x.Contents())
  {
    hide Flat, Distinct, BufferList.Linked;
    HeldApart(lists, pool, l);
    ghost var held := l.Held();
    var total, batch := l.Write(bytes);
    WorldKept(lists, pool, l, held);
  }

  /** Reading from one list: the blocks given back are nobody else's. */
  method ReadFrom(lists: set<BufferList>, pool: ObjectList, l: BufferList, to: array<Byte>, n: nat) returns (count: nat)
    requires World(lists, pool) && l in lists && n <= to.Length
    requires forall x, b :: x in lists && b in x.Held() ==> b.data != to
    modifies l, pool, to, set b: Buffer | b in l.Held() :: b.data
    ensures World(lists, pool)
    ensures count == if n <= |old(l.Contents())| then n else |old(l.Contents())|
    ensures to[..count] == old(l.Contents())[..count] && l.Contents() == old(l.Contents())[count..]
    ensures forall x :: x in lists && x != l ==> x.Contents() == old(x.Contents())
  {
    hide Flat, Distinct, BufferList.Linked;
    HeldApart(lists, pool, l);
    ghost var held := l.Held();
    count := l.Read(to, n);
    assert forall x, b :: x in lists && b in x.chain ==> b in old(x.Held());
    WorldKept(lists, pool, l, held);
  }

  /** What Send in net.cc can do: 5000 bytes are readable, in two blocks, and it drops all of them at
      once; the list is broken. */
  method DropTooMuch() returns (l: BufferList)
    ensures !l.Valid()
  {
    hide Flat, Distinct, BufferList.Linked, BufferList.Shaped, BufferList.Contents;
    var pool := new ObjectList();
    ghost var free := pool.freeList;
    l := new BufferList(pool);
    assert forall b :: b in l.Held() ==> b in free || (fresh(b) && fresh(b.data));
    assert forall b :: b in l.Held() ==> fresh(b) && fresh(b.data);
    assert forall i :: 0 <= i < |l.Held()| ==> l.Held()[i] in l.Held();
    var bytes := seq(5000, i => 0);
    var total, batch := l.Write(bytes);
    assert |l.Contents()| == 5000;
    Within(l);
    l.WriteHeld();
    l.ReadAdvance(5000);
  }

  lemma Within(l: BufferList)
    requires l.Valid()
    ensures l.Current() <= BLOCK
  {
  }

  lemma LaterWindow(s: seq<Byte>, from: nat, to: nat, n: nat)
    requires from + n <= to <= |s|
    ensures s[from..to][n..] == s[from + n..to]
    ensures from + n >= BLOCK ==> s[from..to][n..] == s[BLOCK..][from + n - BLOCK..to - BLOCK]
  {
  }

  lemma Prefix(s: seq<Byte>, from: nat, to: nat, n: nat)
    requires from + n <= to <= |s|
    ensures s[from..to][..n] == s[from..from + n]
  {
  }

  lemma Longer(s: seq<Byte>, from: seq<Byte>, total: nat, k: nat)
    requires total + k <= |from|
    ensures (s + from[..total]) + from[total..total + k] == s + from[..total + k]
    ensures total + k == |from| ==> from[total..] == from[total..total + k] && from[..total + k] == from
  {
  }

  lemma Splice(content: seq<Byte>, before: seq<Byte>, count: nat, k: nat)
    requires count + k <= |content| && count + k <= |before|
    ensures var now := content[..count] + before[count..];
            now[..count] + content[count..][..k] + now[count + k..] == content[..count + k] + before[count + k..]
    ensures content[count..][k..] == content[count + k..]
  {
  }

  lemma Returned(chain: seq<Buffer>, free: seq<Buffer>, done: nat)
    requires done < |chain|
    ensures chain[done..][1..] == chain[done + 1..] && chain[done..][0] == chain[done]
    ensures (free + chain[..done]) + [chain[done]] == free + chain[..done + 1]
  {
  }

  lemma Gone(total: nat, done: nat, inx: nat)
    requires total == BLOCK * done + inx && inx < BLOCK
    ensures total / BLOCK == done
  {
  }

  lemma Rotate(bs: seq<Buffer>)
    requires Distinct(bs) && bs != []
    ensures Distinct(bs[1..] + [bs[0]])
  {
  }
}
