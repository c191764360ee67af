/** src/base/hash.cc: MurmurHash64A on a little-endian machine. */
module Murmur {
  import opened Words

  const SEED: bv64 := 0xbeef

  // ---- the arithmetic, and its inverses ----

  function Scale(x: bv64): bv64 { x * 0xc6a4a7935bd1e995 }

  function Unscale(x: bv64): bv64 { x * 0x5f7a0ea7e59b19bd }

  lemma UnscaleProduct(x: bv64)
    ensures Unscale(x * 0xc6a4a7935bd1e995) == x
  {
  }

  lemma ScaleProduct(x: bv64)
    ensures Scale(x * 0x5f7a0ea7e59b19bd) == x
  {
  }

  /** The multiplier is odd, and has this inverse modulo 2^64. */
  lemma ScaleInverse(x: bv64)
    ensures Unscale(Scale(x)) == x && Scale(Unscale(x)) == x
  {
    UnscaleProduct(x);
    ScaleProduct(x);
  }

  function Smear(x: bv64): bv64 { x ^ (x >> 47) }

  lemma SmearRaw(x: bv64)
    ensures Smear(x ^ (x >> 47)) == x
  {
  }

  lemma SmearTwice(x: bv64)
    ensures Smear(Smear(x)) == x
  {
    SmearRaw(x);
  }

  function Scramble(k: bv64): bv64 { Scale(Smear(Scale(k))) }

  function Unscramble(k: bv64): bv64 { Unscale(Smear(Unscale(k))) }

  lemma ScrambleInverse(k: bv64)
    ensures Unscramble(Scramble(k)) == k && Scramble(Unscramble(k)) == k
  {
    hide Scale, Unscale, Smear;
    ScaleInverse(k);
    ScaleInverse(Smear(Scale(k)));
    ScaleInverse(Smear(Unscale(k)));
    SmearTwice(Scale(k));
    SmearTwice(Unscale(k));
  }

  /** One pass of the loop. */
  function Mixed(h: bv64, k: bv64): bv64 { Scale(Xor(h, Scramble(k))) }

  /** The state before a pass. */
  function Unmixed(h: bv64, k: bv64): bv64 { Xor(Unscale(h), Scramble(k)) }

  lemma MixedInverse(h: bv64, k: bv64)
    ensures Unmixed(Mixed(h, k), k) == h && Mixed(Unmixed(h, k), k) == h
  {
    hide Scale, Unscale, Xor, Scramble;
    ScaleInverse(h);
    ScaleInverse(Xor(h, Scramble(k)));
    XorTwice(h, Scramble(k));
    XorTwice(Unscale(h), Scramble(k));
  }

  /** The block that takes the state g to h. */
  function Between(g: bv64, h: bv64): bv64 { Unscramble(Xor(Unscale(h), g)) }

  lemma BetweenInverse(g: bv64, h: bv64, k: bv64)
    ensures Between(g, Mixed(g, k)) == k && Mixed(g, Between(g, h)) == h
  {
    hide Scale, Unscale, Xor, Scramble, Unscramble;
    ScaleInverse(h);
    ScaleInverse(Xor(g, Scramble(k)));
    Swap(g, Scramble(k));
    XorTwice(Scramble(k), g);
    ScrambleInverse(k);
    ScrambleInverse(Xor(Unscale(h), g));
    XorTwice(Unscale(h), g);
    Swap(Xor(Unscale(h), g), g);
  }

  function Final(h: bv64): bv64 { Smear(Scale(Smear(h))) }

  function Unfinal(h: bv64): bv64 { Smear(Unscale(Smear(h))) }

  lemma FinalInverse(h: bv64)
    ensures Unfinal(Final(h)) == h && Final(Unfinal(h)) == h
  {
    hide Scale, Unscale, Smear;
    SmearTwice(h);
    ScaleInverse(Smear(h));
    SmearTwice(Scale(Smear(h)));
    SmearTwice(Unscale(Smear(h)));
  }

  // ---- the hash as a function of the key ----

  /** The full blocks. */
  function Blocks(h: bv64, key: seq<bv8>): bv64
    decreases |key|
  {
    if |key| < 8 then h else Blocks(Mixed(h, Low(key[..8])), key[8..])
  }

  /** The bytes after them. */
  function Tail(h: bv64, rest: seq<bv8>): bv64
    requires |rest| < 8
  {
    if rest == [] then h else Scale(Xor(h, Low(rest)))
  }

  function Full(key: seq<bv8>): (n: nat)
    ensures n <= |key| && n % 8 == 0 && |key| - n < 8
  {
    |key| / 8 * 8
  }

  function Start(length: nat, seed: bv64): bv64 { Xor(seed, Scale(Bits(length))) }

  function Hash(key: seq<bv8>, seed: bv64): bv64
  {
    Final(Tail(Blocks(Start(|key|, seed), key), key[Full(key)..]))
  }

  lemma {:induction false} BlocksSplit(h: bv64, xs: seq<bv8>, ys: seq<bv8>)
    requires |xs| % 8 == 0
    ensures Blocks(h, xs + ys) == Blocks(Blocks(h, xs), ys)
    decreases |xs|
  {
    hide Mixed, Low;
    if xs == [] {
      assert xs + ys == ys;
    } else {
      BlocksSplit(Mixed(h, Low(xs[..8])), xs[8..], ys);
      assert (xs + ys)[..8] == xs[..8] && (xs + ys)[8..] == xs[8..] + ys;
    }
  }

  lemma OneBlock(h: bv64, block: seq<bv8>)
    requires |block| == 8
    ensures Blocks(h, block) == Mixed(h, Low(block))
  {
    hide Mixed, Low;
    assert block[..8] == block && block[8..] == [];
  }

  // ---- the code: Xor, Scale and Smear are h ^= k, h *= m and h ^= h >> r ----

  method MurmurHash64A(key: seq<bv8>, seed: bv64) returns (h: bv64)
    requires |key| < 0x8000_0000
    ensures h == Hash(key, seed)
  {
    hide Low, Xor, Smear, Scale, Bits;
    h := Xor(seed, Scale(Bits(|key|)));
    var data := 0;
    var end := |key| / 8;
    while data != end
      invariant data <= end
      invariant h == Blocks(Start(|key|, seed), key[..8 * data])
      decreases end - data
    {
      var block := key[8 * data..8 * data + 8];
      OneBlock(h, block);
      BlocksSplit(Start(|key|, seed), key[..8 * data], block);
      assert key[..8 * data] + block == key[..8 * data + 8];
      var k := Low(block);
      data := data + 1;
      k := Scale(k);
      k := Smear(k);
      k := Scale(k);
      h := Xor(h, k);
      h := Scale(h);
    }
    var data2 := key[8 * data..];
    BlocksSplit(Start(|key|, seed), key[..8 * data], data2);
    assert key[..8 * data] + data2 == key;
    h := SwitchTail(h, data2);
    h := Smear(h);
    h := Scale(h);
    h := Smear(h);
  }

  method HashBytes(data: seq<bv8>) returns (h: bv64)
    requires |data| < 0x8000_0000
    ensures h == Hash(data, SEED)
  {
    h := MurmurHash64A(data, SEED);
  }

  /** switch (len & 7) */
  method SwitchTail(start: bv64, data2: seq<bv8>) returns (h: bv64)
    requires |data2| < 8
    ensures h == Tail(start, data2)
  {
    hide Xor, Scale, Low;
    h := start;
    var left := |data2|;
    assert data2[..left] == data2;
    if left >= 7 { h := SwitchCase(h, data2, 6); }
    if left >= 6 { h := SwitchCase(h, data2, 5); }
    if left >= 5 { h := SwitchCase(h, data2, 4); }
    if left >= 4 { h := SwitchCase(h, data2, 3); }
    if left >= 3 { h := SwitchCase(h, data2, 2); }
    if left >= 2 { h := SwitchCase(h, data2, 1); }
    if left >= 1 {
      h := SwitchCase(h, data2, 0);
      assert h == Xor(start, Low(data2)) by { XorZero(h); }
      h := Scale(h);
    }
  }

  /** h ^= uint64_t(data2[i]) << (8 * i) */
  method SwitchCase(h: bv64, data2: seq<bv8>, i: nat) returns (r: bv64)
    requires i < |data2| < 8
    ensures Xor(r, Low(data2[..i])) == Xor(h, Low(data2[..i + 1]))
  {
    hide Xor, Low;
    AddByte(h, data2, i);
    r := Xor(h, Place(data2[i], i));
  }

  lemma XorZero(h: bv64)
    ensures Xor(h, Low([])) == h
  {
  }

  // ---- what the hash tells apart ----

  function Unblocks(h: bv64, key: seq<bv8>): bv64
    decreases |key|
  {
    if |key| < 8 then h else Unmixed(Unblocks(h, key[8..]), Low(key[..8]))
  }

  lemma {:induction false} BlocksInverse(h: bv64, key: seq<bv8>)
    ensures Unblocks(Blocks(h, key), key) == h && Blocks(Unblocks(h, key), key) == h
    decreases |key|
  {
    hide Mixed, Unmixed, Low;
    if |key| >= 8 {
      var k := Low(key[..8]);
      BlocksInverse(Mixed(h, k), key[8..]);
      MixedInverse(h, k);
      BlocksInverse(h, key[8..]);
      MixedInverse(Unblocks(h, key[8..]), k);
    }
  }

  function Untail(h: bv64, rest: seq<bv8>): bv64
    requires |rest| < 8
  {
    if rest == [] then h else Xor(Unscale(h), Low(rest))
  }

  lemma TailInverse(h: bv64, rest: seq<bv8>)
    requires |rest| < 8
    ensures Untail(Tail(h, rest), rest) == h && Tail(Untail(h, rest), rest) == h
  {
    hide Scale, Unscale, Xor, Low;
    if rest != [] {
      ScaleInverse(h);
      ScaleInverse(Xor(h, Low(rest)));
      XorTwice(h, Low(rest));
      XorTwice(Unscale(h), Low(rest));
    }
  }

  /** From the state before the bytes `key` to the hash, and back. */
  function After(h: bv64, key: seq<bv8>): bv64 { Final(Tail(Blocks(h, key), key[Full(key)..])) }

  function Before(t: bv64, key: seq<bv8>): bv64 { Unblocks(Untail(Unfinal(t), key[Full(key)..]), key) }

  lemma AfterInverse(h: bv64, key: seq<bv8>)
    ensures Before(After(h, key), key) == h && After(Before(h, key), key) == h
  {
    hide Final, Unfinal, Blocks, Unblocks, Tail, Untail;
    var rest := key[Full(key)..];
    BlocksInverse(h, key);
    TailInverse(Blocks(h, key), rest);
    FinalInverse(Tail(Blocks(h, key), rest));
    FinalInverse(h);
    TailInverse(Unfinal(h), rest);
    BlocksInverse(Untail(Unfinal(h), rest), key);
  }

  lemma HashFrom(before: seq<bv8>, after: seq<bv8>, seed: bv64)
    requires |before| % 8 == 0
    ensures Hash(before + after, seed) == After(Blocks(Start(|before| + |after|, seed), before), after)
  {
    hide Final, Blocks, Tail, Start, Full;
    BlocksSplit(Start(|before| + |after|, seed), before, after);
    FullSplit(before, after);
    assert (before + after)[Full(before + after)..] == after[Full(after)..];
  }

  lemma FullSplit(before: seq<bv8>, after: seq<bv8>)
    requires |before| % 8 == 0
    ensures Full(before + after) == |before| + Full(after)
  {
  }

  /** The block that makes the hash of before + block + after equal to t. */
  function BlockFor(before: seq<bv8>, after: seq<bv8>, seed: bv64, t: bv64): seq<bv8>
    requires |before| % 8 == 0
  {
    Store(Between(Blocks(Start(|before| + 8 + |after|, seed), before), Before(t, after)), 8)
  }

  /** Every aligned block decides the hash one to one: with the rest of the key fixed, each of the
      2^64 hashes is that of exactly one block. */
  lemma BlockBijective(before: seq<bv8>, block: seq<bv8>, after: seq<bv8>, seed: bv64, t: bv64)
    requires |before| % 8 == 0 && |block| == 8
    ensures Hash(before + block + after, seed) == t <==> block == BlockFor(before, after, seed, t)
  {
    hide After, Before, Blocks, Start, Mixed, Between, Low, Store, Hash;
    var g := Blocks(Start(|before| + 8 + |after|, seed), before);
    var h := Before(t, after);
    HashOfParts(before, block, after, seed);
    AfterInverse(Mixed(g, Low(block)), after);
    AfterInverse(t, after);
    BetweenInverse(g, h, Low(block));
    LowStore(Between(g, h));
    LowStore(Low(block));
    LowStore(Between(g, h));
    if Low(block) == Between(g, h) { LowInjective(block, Store(Between(g, h), 8)); }
  }

  lemma HashOfParts(before: seq<bv8>, block: seq<bv8>, after: seq<bv8>, seed: bv64)
    requires |before| % 8 == 0 && |block| == 8
    ensures Hash(before + block + after, seed)
         == After(Mixed(Blocks(Start(|before| + 8 + |after|, seed), before), Low(block)), after)
  {
    hide After, Start, Mixed, Low, Hash, Blocks;
    var start := Start(|before| + 8 + |after|, seed);
    HashFrom(before + block, after, seed);
    BlocksSplit(start, before, block);
    OneBlock(Blocks(start, before), block);
  }

  /** So keys that differ only in one aligned block have different hashes. */
  lemma BlockInjective(before: seq<bv8>, x: seq<bv8>, y: seq<bv8>, after: seq<bv8>, seed: bv64)
    requires |before| % 8 == 0 && |x| == |y| == 8 && x != y
    ensures Hash(before + x + after, seed) != Hash(before + y + after, seed)
  {
    hide Hash, BlockFor;
    BlockBijective(before, x, after, seed, Hash(before + x + after, seed));
    BlockBijective(before, y, after, seed, Hash(before + x + after, seed));
  }

  /** And so have keys that differ only in the bytes after the last full block. */
  lemma TailInjective(before: seq<bv8>, x: seq<bv8>, y: seq<bv8>, seed: bv64)
    requires |before| % 8 == 0 && |x| == |y| < 8 && x != y
    ensures Hash(before + x, seed) != Hash(before + y, seed)
  {
    hide Hash, After, Start, Blocks, Tail, Final;
    var h := Blocks(Start(|before| + |x|, seed), before);
    HashFrom(before, x, seed);
    HashFrom(before, y, seed);
    AfterTail(h, x);
    AfterTail(h, y);
    FinalInverse(Tail(h, x));
    FinalInverse(Tail(h, y));
    TailsDiffer(h, x, y);
  }

  lemma AfterTail(h: bv64, x: seq<bv8>)
    requires |x| < 8
    ensures After(h, x) == Final(Tail(h, x))
  {
    hide Final, Tail, Mixed;
    assert x[Full(x)..] == x;
  }

  lemma TailsDiffer(h: bv64, x: seq<bv8>, y: seq<bv8>)
    requires |x| == |y| < 8 && x != y
    ensures Tail(h, x) != Tail(h, y)
  {
    hide Scale, Unscale, Xor, Low;
    ScaleInverse(Xor(h, Low(x)));
    ScaleInverse(Xor(h, Low(y)));
    Swap(h, Low(x));
    Swap(h, Low(y));
    XorTwice(Low(x), h);
    XorTwice(Low(y), h);
    if Low(x) == Low(y) { LowInjective(x, y); }
  }

  /** Keys of one length of at most 8 bytes never collide. */
  lemma ShortKeys(x: seq<bv8>, y: seq<bv8>, seed: bv64)
    requires |x| == |y| <= 8
    ensures Hash(x, seed) == Hash(y, seed) <==> x == y
  {
    hide Hash;
    if x != y {
      if |x| == 8 {
        BlockInjective([], x, y, [], seed);
        assert [] + x + [] == x && [] + y + [] == y;
      } else {
        TailInjective([], x, y, seed);
        assert [] + x == x && [] + y == y;
      }
    }
  }

  /** The seed decides the hash one to one as well: it is xor-ed with the length times the multiplier. */
  lemma SeedBijective(key: seq<bv8>, seed: bv64, t: bv64)
    ensures Hash(key, seed) == t <==> seed == Xor(Before(t, key), Scale(Bits(|key|)))
  {
    hide After, Before, Scale, Xor, Bits, Hash;
    var length := Scale(Bits(|key|));
    HashFrom([], key, seed);
    BlocksNone(Xor(seed, length));
    assert [] + key == key;
    AfterInverse(Xor(seed, length), key);
    AfterInverse(t, key);
    XorTwice(seed, length);
    XorTwice(Before(t, key), length);
  }

  lemma BlocksNone(h: bv64)
    ensures Blocks(h, []) == h
  {
  }
}
