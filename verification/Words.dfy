/** Bytes and 64-bit words of a little-endian machine.  The operators on words have names, so that
    a proof can use a law about them without looking at single bits. */
module Words {
  function Xor(x: bv64, y: bv64): bv64 { x ^ y }

  function Or(x: bv64, y: bv64): bv64 { x | y }

  function And(x: bv64, y: bv64): bv64 { x & y }

  function Plus(x: bv64, y: bv64): bv64 { x + y }

  function Minus(x: bv64, y: bv64): bv64 { x - y }

  /** A length as an unsigned 64-bit number, modulo 2^64. */
  function Bits(n: nat): bv64
  {
    if n == 0 then 0 else Plus(Bits(n - 1), 1)
  }

  // ---- laws of the operators ----

  lemma XorRaw(x: bv64, y: bv64)
    ensures Xor(x ^ y, y) == x
  {
  }

  lemma XorTwice(x: bv64, y: bv64)
    ensures Xor(Xor(x, y), y) == x
  {
    XorRaw(x, y);
  }

  lemma PlusMinusRaw(x: bv64, y: bv64)
    ensures Plus(x - y, y) == x && Minus(x + y, y) == x
  {
  }

  lemma PlusMinus(x: bv64, y: bv64)
    ensures Plus(Minus(x, y), y) == x && Minus(Plus(x, y), y) == x
  {
    PlusMinusRaw(x, y);
  }

  lemma MergeRaw(h: bv64, x: bv64, y: bv64)
    ensures Xor(h ^ x, y) == Xor(h, x ^ y) && Plus(h + x, y) == Plus(h, x + y)
  {
  }

  lemma Merge(h: bv64, x: bv64, y: bv64)
    ensures Xor(Xor(h, x), y) == Xor(h, Xor(x, y)) && Plus(Plus(h, x), y) == Plus(h, Plus(x, y))
  {
    MergeRaw(h, x, y);
  }

  lemma DisjointRaw(x: bv64, y: bv64)
    requires x & y == 0
    ensures x | y == x + y == x ^ y
  {
  }

  lemma Disjoint(x: bv64, y: bv64)
    requires And(x, y) == 0
    ensures Or(x, y) == Plus(x, y) == Xor(x, y)
  {
    DisjointRaw(x, y);
  }

  // ---- the bytes of a word ----

  function Place(b: bv8, i: nat): bv64
    requires i < 8
  {
    match i
    case 0 => b as bv64
    case 1 => (b as bv64) << 8
    case 2 => (b as bv64) << 16
    case 3 => (b as bv64) << 24
    case 4 => (b as bv64) << 32
    case 5 => (b as bv64) << 40
    case 6 => (b as bv64) << 48
    case 7 => (b as bv64) << 56
  }

  function Pick(w: bv64, i: nat): bv8
    requires i < 8
  {
    match i
    case 0 => (w & 255) as bv8
    case 1 => ((w >> 8) & 255) as bv8
    case 2 => ((w >> 16) & 255) as bv8
    case 3 => ((w >> 24) & 255) as bv8
    case 4 => ((w >> 32) & 255) as bv8
    case 5 => ((w >> 40) & 255) as bv8
    case 6 => ((w >> 48) & 255) as bv8
    case 7 => ((w >> 56) & 255) as bv8
  }

  /** All bits of the first i bytes. */
  function Below(i: nat): bv64
    requires i <= 8
  {
    match i
    case 0 => 0
    case 1 => 0xff
    case 2 => 0xffff
    case 3 => 0xff_ffff
    case 4 => 0xffff_ffff
    case 5 => 0xff_ffff_ffff
    case 6 => 0xffff_ffff_ffff
    case 7 => 0xff_ffff_ffff_ffff
    case 8 => 0xffff_ffff_ffff_ffff
  }

  lemma PlaceApart(x: bv64, b: bv8, i: nat)
    requires i < 8 && And(x, Below(i)) == x
    ensures And(x, Place(b, i)) == 0
  {
    match i
    case 0 =>
    case 1 =>
    case 2 =>
    case 3 =>
    case 4 =>
    case 5 =>
    case 6 =>
    case 7 =>
  }

  lemma PlaceFits(x: bv64, b: bv8, i: nat)
    requires i < 8 && And(x, Below(i)) == x
    ensures And(Or(x, Place(b, i)), Below(i + 1)) == Or(x, Place(b, i))
  {
    match i
    case 0 =>
    case 1 =>
    case 2 =>
    case 3 =>
    case 4 =>
    case 5 =>
    case 6 =>
    case 7 =>
  }

  lemma PlacePick(x: bv64, b: bv8, i: nat)
    requires i < 8 && And(x, Below(i)) == x
    ensures Pick(Or(x, Place(b, i)), i) == b
  {
    match i
    case 0 =>
    case 1 =>
    case 2 =>
    case 3 =>
    case 4 =>
    case 5 =>
    case 6 =>
    case 7 =>
  }

  lemma PlaceKeeps(x: bv64, b: bv8, i: nat)
    requires i < 8 && And(x, Below(i)) == x
    ensures And(Or(x, Place(b, i)), Below(i)) == x
  {
    match i
    case 0 =>
    case 1 =>
    case 2 =>
    case 3 =>
    case 4 =>
    case 5 =>
    case 6 =>
    case 7 =>
  }

  lemma PickPlaceLow(w: bv64, i: nat)
    requires i < 4
    ensures Or(And(w, Below(i)), Place(Pick(w, i), i)) == And(w, Below(i + 1))
  {
  }

  lemma PickPlaceHigh(w: bv64, i: nat)
    requires 4 <= i < 6
    ensures Or(And(w, Below(i)), Place(Pick(w, i), i)) == And(w, Below(i + 1))
  {
  }

  lemma PickPlaceTop(w: bv64, i: nat)
    requires 6 <= i < 8
    ensures Or(And(w, Below(i)), Place(Pick(w, i), i)) == And(w, Below(i + 1))
  {
  }

  lemma PickPlace(w: bv64, i: nat)
    requires i < 8
    ensures Or(And(w, Below(i)), Place(Pick(w, i), i)) == And(w, Below(i + 1))
  {
    if i < 4 { PickPlaceLow(w, i); } else if i < 6 { PickPlaceHigh(w, i); } else { PickPlaceTop(w, i); }
  }

  /** The number with these bytes, lowest first. */
  function Low(k: seq<bv8>): bv64
    requires |k| <= 8
  {
    if k == [] then 0 else Or(Low(k[..|k| - 1]), Place(k[|k| - 1], |k| - 1))
  }

  lemma {:induction false} LowFits(k: seq<bv8>)
    requires |k| <= 8
    ensures And(Low(k), Below(|k|)) == Low(k)
  {
    hide And, Or, Place, Below;
    if k == [] {
      NoBytesFit();
    } else {
      LowFits(k[..|k| - 1]);
      PlaceFits(Low(k[..|k| - 1]), k[|k| - 1], |k| - 1);
    }
  }

  lemma NoBytesFit()
    ensures And(0, Below(0)) == 0
  {
  }

  /** Keys of one length are told apart by their numbers. */
  lemma {:induction false} LowInjective(x: seq<bv8>, y: seq<bv8>)
    requires |x| == |y| <= 8 && Low(x) == Low(y)
    ensures x == y
  {
    hide And, Or, Place, Below, Pick;
    if x != [] {
      var n := |x| - 1;
      LowFits(x[..n]);
      LowFits(y[..n]);
      PlacePick(Low(x[..n]), x[n], n);
      PlacePick(Low(y[..n]), y[n], n);
      PlaceKeeps(Low(x[..n]), x[n], n);
      PlaceKeeps(Low(y[..n]), y[n], n);
      LowInjective(x[..n], y[..n]);
      assert x == x[..n] + [x[n]] && y == y[..n] + [y[n]];
    }
  }

  lemma LowNext(k: seq<bv8>, i: nat)
    requires i < |k| && i < 8
    ensures Low(k[..i + 1]) == Or(Low(k[..i]), Place(k[i], i))
  {
    assert k[..i + 1][..i] == k[..i];
  }

  /** Eight bytes, lowest first. */
  lemma LowIs(k: seq<bv8>, w: bv64)
    requires |k| == 8
    requires Or(Or(Or(Or(Or(Or(Or(Or(0, Place(k[0], 0)), Place(k[1], 1)), Place(k[2], 2)), Place(k[3], 3)),
                         Place(k[4], 4)), Place(k[5], 5)), Place(k[6], 6)), Place(k[7], 7)) == w
    ensures Low(k) == w
  {
    hide Or, Place, Low;
    assert Low(k[..0]) == 0 by { LowNone(k); }
    LowNext(k, 0);
    LowNext(k, 1);
    LowNext(k, 2);
    LowNext(k, 3);
    LowNext(k, 4);
    LowNext(k, 5);
    LowNext(k, 6);
    LowNext(k, 7);
    assert k[..8] == k;
  }

  lemma LowNone(k: seq<bv8>)
    ensures Low(k[..0]) == 0
  {
  }

  /** The memory of the low n bytes of a word. */
  function Store(w: bv64, n: nat): (k: seq<bv8>)
    requires n <= 8
    ensures |k| == n
  {
    if n == 0 then [] else Store(w, n - 1) + [Pick(w, n - 1)]
  }

  lemma {:induction false} LowStorePart(w: bv64, n: nat)
    requires n <= 8
    ensures Low(Store(w, n)) == And(w, Below(n))
  {
    hide And, Or, Place, Below, Pick;
    if n == 0 {
      NoBytesOf(w);
    } else {
      LowStorePart(w, n - 1);
      PickPlace(w, n - 1);
      assert Store(w, n)[..n - 1] == Store(w, n - 1);
    }
  }

  lemma NoBytesOf(w: bv64)
    ensures And(w, Below(0)) == 0
  {
  }

  lemma AllBytesOf(w: bv64)
    ensures And(w, Below(8)) == w
  {
  }

  lemma LowStore(w: bv64)
    ensures Low(Store(w, 8)) == w
  {
    hide And, Below;
    LowStorePart(w, 8);
    AllBytesOf(w);
  }

  /** Byte i on top of the bytes below it, whatever the operator: what one case of a switch over
      the number of bytes adds. */
  lemma AddByte(h: bv64, k: seq<bv8>, i: nat)
    requires i < |k| <= 8
    ensures Xor(Xor(h, Place(k[i], i)), Low(k[..i])) == Xor(h, Low(k[..i + 1]))
    ensures Plus(Plus(h, Place(k[i], i)), Low(k[..i])) == Plus(h, Low(k[..i + 1]))
    ensures Plus(Low(k[..i]), Place(k[i], i)) == Low(k[..i + 1])
  {
    hide And, Or, Place, Below, Xor, Plus;
    var low, b := Low(k[..i]), Place(k[i], i);
    assert k[..i + 1][..i] == k[..i];
    LowFits(k[..i]);
    PlaceApart(low, k[i], i);
    Disjoint(low, b);
    Merge(h, b, low);
    Swap(low, b);
  }

  lemma Swap(x: bv64, y: bv64)
    ensures Xor(x, y) == Xor(y, x) && Plus(x, y) == Plus(y, x)
  {
  }

  // ---- lengths ----

  lemma {:induction false} BitsPlus(m: nat, n: nat)
    ensures Bits(m + n) == Plus(Bits(m), Bits(n))
    decreases n
  {
    hide Plus;
    if n == 0 {
      PlusZero(Bits(m));
    } else {
      BitsPlus(m, n - 1);
      Merge(Bits(m), Bits(n - 1), 1);
    }
  }

  lemma PlusZero(x: bv64)
    ensures Plus(x, 0) == x
  {
  }

  lemma EightBits()
    ensures Bits(8) == 8
  {
  }

  lemma ShiftZero()
    ensures Shift3(0) == 0
  {
  }

  function Shift3(x: bv64): bv64 { x << 3 }

  lemma ShiftNextRaw(x: bv64)
    ensures Shift3(x + 1) == Plus(x << 3, 8)
  {
  }

  lemma ShiftNext(x: bv64)
    ensures Shift3(Plus(x, 1)) == Plus(Shift3(x), 8)
  {
    ShiftNextRaw(x);
  }

  /** length << 3 */
  lemma {:induction false} BitsTimesEight(n: nat)
    ensures Bits(8 * n) == Shift3(Bits(n))
  {
    hide Plus, Shift3;
    if n == 0 {
      ShiftZero();
    } else {
      BitsTimesEight(n - 1);
      BitsPlus(8 * (n - 1), 8);
      EightBits();
      ShiftNext(Bits(n - 1));
    }
  }
}
