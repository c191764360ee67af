/** src/util/lookup8.cc on a little-endian machine. */
module Lookup8 {
  import opened Words

  const GOLDEN: bv64 := 0x9e3779b97f4a7c13

  datatype State = State(a: bv64, b: bv64, c: bv64)

  // ---- mix64 and its inverse ----

  /** x -= y; x -= z; x ^= w */
  function Turn(x: bv64, y: bv64, z: bv64, w: bv64): bv64 { Xor(Minus(Minus(x, y), z), w) }

  function Unturn(x: bv64, y: bv64, z: bv64, w: bv64): bv64 { Plus(Plus(Xor(x, w), z), y) }

  lemma TurnInverse(x: bv64, y: bv64, z: bv64, w: bv64)
    ensures Unturn(Turn(x, y, z, w), y, z, w) == x && Turn(Unturn(x, y, z, w), y, z, w) == x
  {
    hide Xor, Minus, Plus;
    XorTwice(Minus(Minus(x, y), z), w);
    PlusMinus(Minus(x, y), z);
    PlusMinus(x, y);
    PlusMinus(Plus(Xor(x, w), z), y);
    PlusMinus(Xor(x, w), z);
    XorTwice(x, w);
  }

  /** The shifts of the three lines of round r = 0..3. */
  function ShiftA(c: bv64, r: nat): bv64
    requires r < 4
  {
    match r case 0 => c >> 43 case 1 => c >> 38 case 2 => c >> 35 case 3 => c >> 12
  }

  function ShiftB(a: bv64, r: nat): bv64
    requires r < 4
  {
    match r case 0 => a << 9 case 1 => a << 23 case 2 => a << 49 case 3 => a << 18
  }

  function ShiftC(b: bv64, r: nat): bv64
    requires r < 4
  {
    match r case 0 => b >> 8 case 1 => b >> 5 case 2 => b >> 11 case 3 => b >> 22
  }

  function Round(s: State, r: nat): State
    requires r < 4
  {
    var a := Turn(s.a, s.b, s.c, ShiftA(s.c, r));
    var b := Turn(s.b, s.c, a, ShiftB(a, r));
    var c := Turn(s.c, a, b, ShiftC(b, r));
    State(a, b, c)
  }

  function Unround(s: State, r: nat): State
    requires r < 4
  {
    var c := Unturn(s.c, s.a, s.b, ShiftC(s.b, r));
    var b := Unturn(s.b, c, s.a, ShiftB(s.a, r));
    var a := Unturn(s.a, b, c, ShiftA(c, r));
    State(a, b, c)
  }

  lemma RoundInverse(s: State, r: nat)
    requires r < 4
    ensures Unround(Round(s, r), r) == s && Round(Unround(s, r), r) == s
  {
    hide Turn, Unturn, ShiftA, ShiftB, ShiftC;
    var t := Round(s, r);
    TurnInverse(s.a, s.b, s.c, ShiftA(s.c, r));
    TurnInverse(s.b, s.c, t.a, ShiftB(t.a, r));
    TurnInverse(s.c, t.a, t.b, ShiftC(t.b, r));
    var u := Unround(s, r);
    TurnInverse(s.c, s.a, s.b, ShiftC(s.b, r));
    TurnInverse(s.b, u.c, s.a, ShiftB(s.a, r));
    TurnInverse(s.a, u.b, u.c, ShiftA(u.c, r));
  }

  function Mix(s: State): State { Round(Round(Round(Round(s, 0), 1), 2), 3) }

  function Unmix(s: State): State { Unround(Unround(Unround(Unround(s, 3), 2), 1), 0) }

  /** mix64 is a bijection on triples. */
  lemma MixInverse(s: State)
    ensures Unmix(Mix(s)) == s && Mix(Unmix(s)) == s
  {
    hide Round, Unround;
    RoundInverse(s, 0);
    RoundInverse(Round(s, 0), 1);
    RoundInverse(Round(Round(s, 0), 1), 2);
    RoundInverse(Round(Round(Round(s, 0), 1), 2), 3);
    RoundInverse(s, 3);
    RoundInverse(Unround(s, 3), 2);
    RoundInverse(Unround(Unround(s, 3), 2), 1);
    RoundInverse(Unround(Unround(Unround(s, 3), 2), 1), 0);
  }

  /** Three lines of the macro. */
  method MixLines(s: State, r: nat) returns (t: State)
    requires r < 4
    ensures t == Round(s, r)
  {
    hide Xor, Minus, ShiftA, ShiftB, ShiftC;
    var a, b, c := s.a, s.b, s.c;
    a := Minus(a, b); a := Minus(a, c); a := Xor(a, ShiftA(c, r));
    b := Minus(b, c); b := Minus(b, a); b := Xor(b, ShiftB(a, r));
    c := Minus(c, a); c := Minus(c, b); c := Xor(c, ShiftC(b, r));
    t := State(a, b, c);
  }

  method Mix64(s: State) returns (t: State)
    ensures t == Mix(s)
  {
    hide Round;
    t := MixLines(s, 0);
    t := MixLines(t, 1);
    t := MixLines(t, 2);
    t := MixLines(t, 3);
  }

  // ---- the hash as a function of the key ----

  function Absorb(s: State, x: bv64, y: bv64, z: bv64): State { Mix(State(Plus(s.a, x), Plus(s.b, y), Plus(s.c, z))) }

  /** The full blocks of 24 bytes. */
  function Blocks(s: State, k: seq<bv8>): State
    decreases |k|
  {
    if |k| < 24 then s else Blocks(Absorb(s, Low(k[..8]), Low(k[8..16]), Low(k[16..24])), k[24..])
  }

  /** The last 23 bytes and the length; the first byte of c is reserved for the length. */
  function Last(s: State, rest: seq<bv8>, length: bv64): State
    requires |rest| < 24
  {
    Absorb(State(s.a, s.b, Plus(s.c, length)), Low(PartA(rest)), Low(PartB(rest)), Low(PartC(rest)))
  }

  function PartA(rest: seq<bv8>): seq<bv8> { if |rest| <= 8 then rest else rest[..8] }

  function PartB(rest: seq<bv8>): seq<bv8>
  {
    if |rest| <= 8 then [] else if |rest| <= 16 then rest[8..] else rest[8..16]
  }

  function PartC(rest: seq<bv8>): seq<bv8> { if |rest| <= 16 then [] else [0] + rest[16..] }

  function Init(level: bv64): State { State(level, level, GOLDEN) }

  function Full(k: seq<bv8>): (n: nat)
    ensures n <= |k| && n % 24 == 0 && |k| - n < 24
  {
    |k| / 24 * 24
  }

  /** (a, b, c) at the end. */
  function End(k: seq<bv8>, level: bv64): State
  {
    Last(Blocks(Init(level), k), k[Full(k)..], Bits(|k|))
  }

  function Hash(k: seq<bv8>, level: bv64): bv64 { End(k, level).c }

  lemma {:induction false} BlocksSplit(s: State, xs: seq<bv8>, ys: seq<bv8>)
    requires |xs| % 24 == 0
    ensures Blocks(s, xs + ys) == Blocks(Blocks(s, xs), ys)
    decreases |xs|
  {
    hide Absorb, Low;
    if xs == [] {
      assert xs + ys == ys;
    } else {
      BlocksSplit(Absorb(s, Low(xs[..8]), Low(xs[8..16]), Low(xs[16..24])), xs[24..], ys);
      assert (xs + ys)[..8] == xs[..8] && (xs + ys)[8..16] == xs[8..16] && (xs + ys)[16..24] == xs[16..24];
      assert (xs + ys)[24..] == xs[24..] + ys;
    }
  }

  lemma OneBlock(s: State, k: seq<bv8>)
    requires |k| == 24
    ensures Blocks(s, k) == Absorb(s, Low(k[..8]), Low(k[8..16]), Low(k[16..24]))
  {
    hide Absorb, Low;
    assert k[24..] == [];
  }

  // ---- the code ----

  /** k[0] + ((ub8)k[1] << 8) + ... + ((ub8)k[7] << 56) */
  method SumBytes(k: seq<bv8>) returns (w: bv64)
    requires |k| == 8
    ensures w == Low(k)
  {
    hide Plus, Place, Low;
    assert k[..8] == k;
    First(k);
    w := Place(k[0], 0);
    AddByte(w, k, 1); w := Plus(w, Place(k[1], 1));
    AddByte(w, k, 2); w := Plus(w, Place(k[2], 2));
    AddByte(w, k, 3); w := Plus(w, Place(k[3], 3));
    AddByte(w, k, 4); w := Plus(w, Place(k[4], 4));
    AddByte(w, k, 5); w := Plus(w, Place(k[5], 5));
    AddByte(w, k, 6); w := Plus(w, Place(k[6], 6));
    AddByte(w, k, 7); w := Plus(w, Place(k[7], 7));
  }

  lemma First(k: seq<bv8>)
    requires |k| == 8
    ensures Low(k[..1]) == Place(k[0], 0)
  {
    assert k[..1][..0] == [];
  }

  method HashKey(k: seq<bv8>, level: bv64) returns (r: bv64)
    requires |k| < 0x1_0000_0000_0000_0000
    ensures r == Hash(k, level)
  {
    hide Plus, Low, Mix, Last, Bits;
    var s := Init(level);
    var at := 0;
    while |k| - at >= 24
      invariant at <= |k| && at % 24 == 0 && s == Blocks(Init(level), k[..at])
    {
      OneMore(Init(level), k, at);
      var a := SumBytes(k[at..at + 8]);
      var b := SumBytes(k[at + 8..at + 16]);
      var c := SumBytes(k[at + 16..at + 24]);
      s := Mix64(State(Plus(s.a, a), Plus(s.b, b), Plus(s.c, c)));
      at := at + 24;
    }
    Rest(Init(level), k, at);
    s := Finish(s, k[at..], Bits(|k|));
    r := s.c;
  }

  /** hash3; `aligned`: the key starts at a multiple of 8. */
  method HashFast(k: seq<bv8>, level: bv64, aligned: bool) returns (r: bv64)
    requires |k| < 0x1_0000_0000_0000_0000
    ensures r == Hash(k, level)
  {
    hide Plus, Low, Mix, Last, Bits;
    var s := Init(level);
    var at := 0;
    if !aligned {
      while |k| - at >= 24
        invariant at <= |k| && at % 24 == 0 && s == Blocks(Init(level), k[..at])
      {
        OneMore(Init(level), k, at);
        var a := SumBytes(k[at..at + 8]);
        var b := SumBytes(k[at + 8..at + 16]);
        var c := SumBytes(k[at + 16..at + 24]);
        s := Mix64(State(Plus(s.a, a), Plus(s.b, b), Plus(s.c, c)));
        at := at + 24;
      }
    } else {
      while |k| - at >= 24
        invariant at <= |k| && at % 24 == 0 && s == Blocks(Init(level), k[..at])
      {
        OneMore(Init(level), k, at);
        s := Mix64(State(Plus(s.a, Low(k[at..at + 8])), Plus(s.b, Low(k[at + 8..at + 16])), Plus(s.c, Low(k[at + 16..at + 24]))));
        at := at + 24;
      }
    }
    Rest(Init(level), k, at);
    s := Finish(s, k[at..], Bits(|k|));
    r := s.c;
  }

  lemma OneMore(s: State, k: seq<bv8>, at: nat)
    requires at % 24 == 0 && at + 24 <= |k|
    ensures Blocks(s, k[..at + 24])
         == Absorb(Blocks(s, k[..at]), Low(k[at..at + 8]), Low(k[at + 8..at + 16]), Low(k[at + 16..at + 24]))
  {
    hide Absorb, Low, Blocks;
    var block := k[at..at + 24];
    assert k[..at] + block == k[..at + 24];
    BlocksSplit(s, k[..at], block);
    OneBlock(Blocks(s, k[..at]), block);
    assert block[..8] == k[at..at + 8] && block[8..16] == k[at + 8..at + 16] && block[16..24] == k[at + 16..at + 24];
  }

  lemma Rest(s: State, k: seq<bv8>, at: nat)
    requires at <= |k| < at + 24 && at % 24 == 0
    ensures Blocks(s, k) == Blocks(s, k[..at]) && Full(k) == at
  {
    hide Absorb, Low;
    assert k[..at] + k[at..] == k;
    BlocksSplit(s, k[..at], k[at..]);
  }

  /** c += length, the switch, and the last mix64. */
  method Finish(s: State, k: seq<bv8>, length: bv64) returns (t: State)
    requires |k| < 24
    ensures t == Last(s, k, length)
  {
    hide Plus, Low, Mix;
    var c := Plus(s.c, length);
    c := Switch(c, PartC(k));
    var b := Switch(s.b, PartB(k));
    var a := Switch(s.a, PartA(k));
    t := Mix64(State(a, b, c));
  }

  /** The cases for the bytes of one word, highest first, each falling through to the next; the
      byte of c that is reserved for the length adds nothing. */
  method Switch(start: bv64, k: seq<bv8>) returns (x: bv64)
    requires |k| <= 8
    ensures x == Plus(start, Low(k))
  {
    hide Plus, Low, Place;
    x := start;
    var len := |k|;
    assert k[..len] == k;
    if len >= 8 { AddByte(x, k, 7); x := Plus(x, Place(k[7], 7)); }
    if len >= 7 { AddByte(x, k, 6); x := Plus(x, Place(k[6], 6)); }
    if len >= 6 { AddByte(x, k, 5); x := Plus(x, Place(k[5], 5)); }
    if len >= 5 { AddByte(x, k, 4); x := Plus(x, Place(k[4], 4)); }
    if len >= 4 { AddByte(x, k, 3); x := Plus(x, Place(k[3], 3)); }
    if len >= 3 { AddByte(x, k, 2); x := Plus(x, Place(k[2], 2)); }
    if len >= 2 { AddByte(x, k, 1); x := Plus(x, Place(k[1], 1)); }
    if len >= 1 { AddByte(x, k, 0); x := Plus(x, Place(k[0], 0)); }
    assert k[..0] == [];
    PlusLowNone(x);
  }

  lemma PlusLowNone(x: bv64)
    ensures Plus(x, Low([])) == x
  {
  }

  // ---- hash2: the key is an array of words ----

  function Memory(words: seq<bv64>): (k: seq<bv8>)
    ensures |k| == 8 * |words|
  {
    if words == [] then [] else Memory(words[..|words| - 1]) + Store(words[|words| - 1], 8)
  }

  lemma {:induction false} MemoryAt(words: seq<bv64>, i: nat)
    requires i < |words|
    ensures Memory(words)[..8 * i] == Memory(words[..i]) && Memory(words)[8 * i..8 * i + 8] == Store(words[i], 8)
  {
    hide Store;
    var n := |words| - 1;
    if i < n {
      MemoryAt(words[..n], i);
      assert Memory(words)[..8 * n] == Memory(words[..n]);
      assert words[..n][..i] == words[..i];
      assert Memory(words)[..8 * i] == Memory(words)[..8 * n][..8 * i];
      assert Memory(words)[8 * i..8 * i + 8] == Memory(words)[..8 * n][8 * i..8 * i + 8];
    }
  }

  lemma WordAt(words: seq<bv64>, i: nat)
    requires i < |words|
    ensures Low(Memory(words)[8 * i..8 * i + 8]) == words[i]
  {
    hide Low, Store, Memory;
    MemoryAt(words, i);
    LowStore(words[i]);
  }

  /** hash2 gives what hash gives for the memory of the words. */
  method HashWords(words: seq<bv64>, level: bv64) returns (r: bv64)
    requires 8 * |words| < 0x1_0000_0000_0000_0000
    ensures r == Hash(Memory(words), level)
  {
    hide Plus, Low, Mix, Last, Bits, Memory, Shift3;
    ghost var key := Memory(words);
    var s := Init(level);
    var at := 0;
    while |words| - at >= 3
      invariant at <= |words| && at % 3 == 0 && s == Blocks(Init(level), key[..8 * at])
    {
      OneMore(Init(level), key, 8 * at);
      WordAt(words, at);
      WordAt(words, at + 1);
      WordAt(words, at + 2);
      s := Mix64(State(Plus(s.a, words[at]), Plus(s.b, words[at + 1]), Plus(s.c, words[at + 2])));
      at := at + 3;
    }
    Rest(Init(level), key, 8 * at);
    BitsTimesEight(|words|);
    LastWords(s, words, at);
    var len := |words| - at;
    var a, b, c := s.a, s.b, Plus(s.c, Shift3(Bits(|words|)));
    if len >= 2 { b := Plus(b, words[at + 1]); }
    if len >= 1 { a := Plus(a, words[at]); }
    s := Mix64(State(a, b, c));
    r := s.c;
  }

  lemma LastWords(s: State, words: seq<bv64>, at: nat)
    requires at <= |words| < at + 3
    ensures var rest, length := Memory(words)[8 * at..], Bits(8 * |words|);
            Last(s, rest, length) ==
              Mix(State(if |words| - at >= 1 then Plus(s.a, words[at]) else s.a,
                        if |words| - at >= 2 then Plus(s.b, words[at + 1]) else s.b,
                        Plus(s.c, length)))
  {
    hide Plus, Low, Mix, Bits, Memory, PartA, PartB, PartC;
    LastParts(s.a, s.b, Plus(s.c, Bits(8 * |words|)), words, at);
  }

  lemma LastParts(a: bv64, b: bv64, c: bv64, words: seq<bv64>, at: nat)
    requires at <= |words| < at + 3
    ensures var rest, n := Memory(words)[8 * at..], |words| - at;
            && Plus(a, Low(PartA(rest))) == (if n >= 1 then Plus(a, words[at]) else a)
            && Plus(b, Low(PartB(rest))) == (if n >= 2 then Plus(b, words[at + 1]) else b)
            && Plus(c, Low(PartC(rest))) == c
  {
    hide Plus, Low, Memory, PartA, PartB, PartC;
    var key, n := Memory(words), |words| - at;
    var rest := key[8 * at..];
    WholeWords(rest);
    PlusLowNone(a);
    PlusLowNone(b);
    PlusLowNone(c);
    if n >= 1 {
      WordAt(words, at);
      assert PartA(rest) == rest[..8] == key[8 * at..8 * at + 8];
    }
    if n >= 2 {
      WordAt(words, at + 1);
      assert PartB(rest) == rest[8..16] == key[8 * (at + 1)..8 * (at + 1) + 8];
    }
  }

  lemma WholeWords(rest: seq<bv8>)
    requires |rest| == 0 || |rest| == 8 || |rest| == 16
    ensures PartA(rest) == (if |rest| == 0 then [] else rest[..8])
    ensures PartB(rest) == (if |rest| == 16 then rest[8..16] else [])
    ensures PartC(rest) == []
  {
  }

  // ---- what the final state tells apart ----

  /** The state before a block, and the block between two states. */
  function Unabsorb(s: State, x: bv64, y: bv64, z: bv64): State
  {
    var t := Unmix(s);
    State(Minus(t.a, x), Minus(t.b, y), Minus(t.c, z))
  }

  function Between(s: State, t: State): State
  {
    var u := Unmix(t);
    State(Minus(u.a, s.a), Minus(u.b, s.b), Minus(u.c, s.c))
  }

  lemma AbsorbInverse(s: State, x: bv64, y: bv64, z: bv64)
    ensures Unabsorb(Absorb(s, x, y, z), x, y, z) == s && Absorb(Unabsorb(s, x, y, z), x, y, z) == s
  {
    hide Mix, Unmix, Plus, Minus;
    MixInverse(State(Plus(s.a, x), Plus(s.b, y), Plus(s.c, z)));
    MixInverse(s);
    var t := Unmix(s);
    PlusMinus(s.a, x);
    PlusMinus(s.b, y);
    PlusMinus(s.c, z);
    PlusMinus(t.a, x);
    PlusMinus(t.b, y);
    PlusMinus(t.c, z);
  }

  lemma BetweenInverse(s: State, t: State, x: bv64, y: bv64, z: bv64)
    ensures Between(s, Absorb(s, x, y, z)) == State(x, y, z)
    ensures var d := Between(s, t); Absorb(s, d.a, d.b, d.c) == t
  {
    hide Mix, Unmix, Plus, Minus;
    MixInverse(State(Plus(s.a, x), Plus(s.b, y), Plus(s.c, z)));
    MixInverse(t);
    var u := Unmix(t);
    Swap(s.a, x);
    Swap(s.b, y);
    Swap(s.c, z);
    PlusMinus(x, s.a);
    PlusMinus(y, s.b);
    PlusMinus(z, s.c);
    PlusMinus(u.a, s.a);
    PlusMinus(u.b, s.b);
    PlusMinus(u.c, s.c);
    Swap(s.a, Minus(u.a, s.a));
    Swap(s.b, Minus(u.b, s.b));
    Swap(s.c, Minus(u.c, s.c));
  }

  function Unblocks(s: State, k: seq<bv8>): State
    decreases |k|
  {
    if |k| < 24 then s else Unabsorb(Unblocks(s, k[24..]), Low(k[..8]), Low(k[8..16]), Low(k[16..24]))
  }

  lemma {:induction false} BlocksInverse(s: State, k: seq<bv8>)
    ensures Unblocks(Blocks(s, k), k) == s && Blocks(Unblocks(s, k), k) == s
    decreases |k|
  {
    hide Absorb, Unabsorb, Low;
    if |k| >= 24 {
      var x, y, z := Low(k[..8]), Low(k[8..16]), Low(k[16..24]);
      BlocksInverse(Absorb(s, x, y, z), k[24..]);
      AbsorbInverse(s, x, y, z);
      BlocksInverse(s, k[24..]);
      AbsorbInverse(Unblocks(s, k[24..]), x, y, z);
    }
  }

  function Unlast(s: State, rest: seq<bv8>, length: bv64): State
    requires |rest| < 24
  {
    var t := Unabsorb(s, Low(PartA(rest)), Low(PartB(rest)), Low(PartC(rest)));
    State(t.a, t.b, Minus(t.c, length))
  }

  lemma LastInverse(s: State, rest: seq<bv8>, length: bv64)
    requires |rest| < 24
    ensures Unlast(Last(s, rest, length), rest, length) == s && Last(Unlast(s, rest, length), rest, length) == s
  {
    hide Absorb, Unabsorb, Low, Plus, Minus;
    var x, y, z := Low(PartA(rest)), Low(PartB(rest)), Low(PartC(rest));
    AbsorbInverse(State(s.a, s.b, Plus(s.c, length)), x, y, z);
    AbsorbInverse(s, x, y, z);
    PlusMinus(s.c, length);
    PlusMinus(Unabsorb(s, x, y, z).c, length);
  }

  /** From the state before the bytes `k` to the state at the end, and back. */
  function After(s: State, k: seq<bv8>, length: bv64): State { Last(Blocks(s, k), k[Full(k)..], length) }

  function Before(t: State, k: seq<bv8>, length: bv64): State { Unblocks(Unlast(t, k[Full(k)..], length), k) }

  lemma AfterInverse(s: State, k: seq<bv8>, length: bv64)
    ensures Before(After(s, k, length), k, length) == s && After(Before(s, k, length), k, length) == s
  {
    hide Blocks, Unblocks, Last, Unlast;
    var rest := k[Full(k)..];
    BlocksInverse(s, k);
    LastInverse(Blocks(s, k), rest, length);
    LastInverse(s, rest, length);
    BlocksInverse(Unlast(s, rest, length), k);
  }

  lemma EndFrom(before: seq<bv8>, after: seq<bv8>, level: bv64)
    requires |before| % 24 == 0
    ensures End(before + after, level) == After(Blocks(Init(level), before), after, Bits(|before| + |after|))
  {
    hide Blocks, Last, Full, Bits;
    BlocksSplit(Init(level), before, after);
    FullSplit(before, after);
    assert (before + after)[Full(before + after)..] == after[Full(after)..];
  }

  lemma FullSplit(before: seq<bv8>, after: seq<bv8>)
    requires |before| % 24 == 0
    ensures Full(before + after) == |before| + Full(after)
  {
  }

  function Bytes(s: State): (k: seq<bv8>)
    ensures |k| == 24
  {
    Store(s.a, 8) + Store(s.b, 8) + Store(s.c, 8)
  }

  lemma BytesIff(k: seq<bv8>, s: State)
    requires |k| == 24
    ensures State(Low(k[..8]), Low(k[8..16]), Low(k[16..24])) == s <==> k == Bytes(s)
  {
    hide Low, Store;
    LowStore(s.a);
    LowStore(s.b);
    LowStore(s.c);
    assert Bytes(s)[..8] == Store(s.a, 8) && Bytes(s)[8..16] == Store(s.b, 8) && Bytes(s)[16..24] == Store(s.c, 8);
    if State(Low(k[..8]), Low(k[8..16]), Low(k[16..24])) == s {
      LowInjective(k[..8], Store(s.a, 8));
      LowInjective(k[8..16], Store(s.b, 8));
      LowInjective(k[16..24], Store(s.c, 8));
      assert k == k[..8] + k[8..16] + k[16..24];
    }
  }

  /** The block that makes the hash of before + block + after end in t. */
  function BlockFor(before: seq<bv8>, after: seq<bv8>, level: bv64, t: State): seq<bv8>
  {
    Bytes(Between(Blocks(Init(level), before), Before(t, after, Bits(|before| + 24 + |after|))))
  }

  /** Every aligned block of 24 bytes decides the final state one to one: with the rest of the key
      and the level fixed, each of the 2^192 states comes from exactly one block. */
  lemma BlockBijective(before: seq<bv8>, block: seq<bv8>, after: seq<bv8>, level: bv64, t: State)
    requires |before| % 24 == 0 && |block| == 24
    ensures End(before + block + after, level) == t <==> block == BlockFor(before, after, level, t)
  {
    hide After, Before, Blocks, Init, Absorb, Between, Low, End, Bytes, Bits;
    var length := Bits(|before| + 24 + |after|);
    var s := Blocks(Init(level), before);
    var x, y, z := Low(block[..8]), Low(block[8..16]), Low(block[16..24]);
    var u := Before(t, after, length);
    EndFrom(before + block, after, level);
    BlocksSplit(Init(level), before, block);
    OneBlock(s, block);
    AfterInverse(Absorb(s, x, y, z), after, length);
    AfterInverse(t, after, length);
    BetweenInverse(s, u, x, y, z);
    BytesIff(block, Between(s, u));
  }

  lemma BlockInjective(before: seq<bv8>, x: seq<bv8>, y: seq<bv8>, after: seq<bv8>, level: bv64)
    requires |before| % 24 == 0 && |x| == |y| == 24 && x != y
    ensures End(before + x + after, level) != End(before + y + after, level)
  {
    hide End, BlockFor;
    BlockBijective(before, x, after, level, End(before + x + after, level));
    BlockBijective(before, y, after, level, End(before + x + after, level));
  }

  /** Keys of one length that differ only in the bytes after the last full block end in different states. */
  lemma TailInjective(before: seq<bv8>, x: seq<bv8>, y: seq<bv8>, level: bv64)
    requires |before| % 24 == 0 && |x| == |y| < 24 && x != y
    ensures End(before + x, level) != End(before + y, level)
  {
    hide End, After, Init, Blocks, Last, Bits;
    var s, length := Blocks(Init(level), before), Bits(|before| + |x|);
    EndFrom(before, x, level);
    EndFrom(before, y, level);
    AfterTail(s, x, length);
    AfterTail(s, y, length);
    LastsDiffer(s, x, y, length);
  }

  lemma AfterTail(s: State, k: seq<bv8>, length: bv64)
    requires |k| < 24
    ensures After(s, k, length) == Last(s, k, length)
  {
    hide Last, Absorb;
    assert k[Full(k)..] == k;
  }

  lemma LastsDiffer(s: State, x: seq<bv8>, y: seq<bv8>, length: bv64)
    requires |x| == |y| < 24 && x != y
    ensures Last(s, x, length) != Last(s, y, length)
  {
    hide Absorb, Between, Low, Plus;
    var t := State(s.a, s.b, Plus(s.c, length));
    BetweenInverse(t, t, Low(PartA(x)), Low(PartB(x)), Low(PartC(x)));
    BetweenInverse(t, t, Low(PartA(y)), Low(PartB(y)), Low(PartC(y)));
    if Low(PartA(x)) == Low(PartA(y)) && Low(PartB(x)) == Low(PartB(y)) && Low(PartC(x)) == Low(PartC(y)) {
      LowInjective(PartA(x), PartA(y));
      LowInjective(PartB(x), PartB(y));
      LowInjective(PartC(x), PartC(y));
      Parts(x);
      Parts(y);
    }
  }

  lemma Parts(k: seq<bv8>)
    requires |k| < 24
    ensures k == PartA(k) + PartB(k) + if PartC(k) == [] then [] else PartC(k)[1..]
  {
  }

  lemma BlocksNone(s: State)
    ensures Blocks(s, []) == s
  {
  }

  /** Different levels, too, lead to different states. */
  lemma LevelInjective(k: seq<bv8>, x: bv64, y: bv64)
    requires End(k, x) == End(k, y)
    ensures x == y
  {
    hide After, Before, Bits, End, Blocks;
    BlocksNone(Init(x));
    BlocksNone(Init(y));
    AfterInverse(Init(x), k, Bits(|k|));
    AfterInverse(Init(y), k, Bits(|k|));
    EndFrom([], k, x);
    EndFrom([], k, y);
    assert [] + k == k;
  }

  // ---- where the level and the length go ----

  /** In a short key: a and b start as the level, c as the golden
      ratio, and the length is added to c. */
  lemma ShortKey(k: seq<bv8>, level: bv64)
    requires |k| < 8
    ensures End(k, level) == Mix(State(Plus(level, Low(k)), level, Plus(0x9e3779b97f4a7c13, Bits(|k|))))
  {
    hide Mix, Low, Plus, Bits, Full, Blocks, PartA, PartB, PartC;
    ShortParts(k, Init(level));
    NoBytes();
    PlusZero(level);
    PlusZero(Plus(GOLDEN, Bits(|k|)));
  }

  lemma ShortParts(k: seq<bv8>, s: State)
    requires |k| < 8
    ensures k[Full(k)..] == k && Blocks(s, k) == s && PartA(k) == k && PartB(k) == PartC(k) == []
  {
  }

  lemma NoBytes()
    ensures Low([]) == 0
  {
  }
}
