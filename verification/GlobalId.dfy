/** idGenerator of src/util/global_id.cc.  A random draw is a parameter; one generator belongs to
    one thread and starts with all fields zero. */
module GlobalId {
  import opened Words

  const LOG_BATCH: nat := 12
  const BATCH: nat := 4096

  /** The two values that reset() draws. */
  datatype Draw = Draw(first: nat, second: nat)

  datatype Generator = Generator(upper: nat, lower: nat, increment: nat, remaining: nat)

  /** The masks in arithmetic; ResetIs and NextIs say that they are those of the code. */
  function Reset(d: Draw): Generator
  {
    var increment := d.second % BATCH;
    Generator(d.first - d.first % BATCH, d.first % BATCH, if increment % 2 == 0 then increment + 1 else increment, BATCH)
  }

  /** The generator after one id was taken, and the id. */
  function Next(g: Generator, d: Draw): (Generator, nat)
  {
    var h := if g.remaining == 0 then Reset(d) else g;
    var lower := (h.lower + h.increment) % BATCH;
    (Generator(h.upper, lower, h.increment, h.remaining - 1), h.upper + lower)
  }

  class IdGenerator {
    var upperBits: nat
    var lowerBits: nat
    var increment: nat
    var remaining: nat

    ghost function Model(): Generator
      reads this
    {
      Generator(upperBits, lowerBits, increment, remaining)
    }

    constructor ()
      ensures Model() == Generator(0, 0, 0, 0)
    {
      upperBits, lowerBits, increment, remaining := 0, 0, 0, 0;
    }

    method NewID(d: Draw) returns (id: nat)
      modifies this
      ensures (Model(), id) == Next(old(Model()), d)
      ensures old(upperBits) % BATCH == 0 ==> Bits(id) == Or(Bits(upperBits), Bits(lowerBits))
    {
      hide Bits, And, Or, Plus;
      if upperBits % BATCH == 0 { NextIs(Model(), d); }
      if remaining == 0 {
        ResetFields(d);
      }
      remaining := remaining - 1;
      lowerBits := (lowerBits + increment) % BATCH;
      id := upperBits + lowerBits;
    }

    method ResetFields(d: Draw)
      modifies this
      ensures Model() == Reset(d)
      ensures Bits(upperBits) == And(Bits(d.first), !0xfff) && Bits(lowerBits) == And(Bits(d.first), 0xfff)
      ensures Bits(increment) == Or(And(Bits(d.second), 0xfff), 1) && remaining == 4096
    {
      hide Bits, And, Or;
      ResetIs(d);
      var v := d.first;
      upperBits := v - v % BATCH;
      lowerBits := v % BATCH;
      increment := d.second % BATCH;
      if increment % 2 == 0 {
        increment := increment + 1;
      }
      remaining := BATCH;
    }
  }

  // ---- the masks of the code ----

  function Pow2(k: nat): (p: nat)
    ensures p > 0
  {
    if k == 0 then 1 else 2 * Pow2(k - 1)
  }

  /** The k lowest bits set. */
  function Ones(k: nat): bv64
  {
    if k == 0 then 0 else Plus(Plus(Ones(k - 1), Ones(k - 1)), 1)
  }

  lemma BitsOne()
    ensures Bits(0) == 0 && Bits(1) == 1
  {
  }

  function Shifted(x: bv64): bv64 { x << 1 }

  lemma ShiftedIs(x: bv64)
    ensures Plus(x, x) == Shifted(x)
  {
  }

  lemma ShiftedApart(x: bv64, b: bv64)
    requires b == 0 || b == 1
    ensures And(Shifted(x), b) == 0
  {
  }

  lemma ShiftedMaskEven(x: bv64, m: bv64)
    ensures ((x << 1) | 0) & ((m << 1) | 1) == ((x & m) << 1) | 0
  {
  }

  lemma ShiftedMaskOdd(x: bv64, m: bv64)
    ensures ((x << 1) | 1) & ((m << 1) | 1) == ((x & m) << 1) | 1
  {
  }

  lemma ShiftedMask(x: bv64, m: bv64, b: bv64)
    requires b == 0 || b == 1
    ensures And(Or(Shifted(x), b), Or(Shifted(m), 1)) == Or(Shifted(And(x, m)), b)
  {
    if b == 0 { ShiftedMaskEven(x, m); } else { ShiftedMaskOdd(x, m); }
  }

  lemma OneMoreBit(x: bv64, b: bv64)
    requires b == 0 || b == 1
    ensures Plus(Plus(x, x), b) == Or(Shifted(x), b)
  {
    hide Plus, And, Or, Xor, Shifted;
    ShiftedIs(x);
    ShiftedApart(x, b);
    Disjoint(Shifted(x), b);
  }

  /** Another bit at the lower end, on both sides of a mask. */
  lemma MaskDouble(x: bv64, m: bv64, b: bv64)
    requires b == 0 || b == 1
    ensures And(Plus(Plus(x, x), b), Plus(Plus(m, m), 1)) == Plus(Plus(And(x, m), And(x, m)), b)
  {
    hide Plus, And, Or, Shifted;
    OneMoreBit(x, b);
    OneMoreBit(m, 1);
    OneMoreBit(And(x, m), b);
    ShiftedMask(x, m, b);
  }

  lemma BitsDouble(q: nat, b: nat)
    requires b <= 1
    ensures Bits(2 * q + b) == Plus(Plus(Bits(q), Bits(q)), Bits(b))
  {
    hide Plus, Bits;
    BitsPlus(q, q);
    BitsPlus(q + q, b);
  }

  /** A mask of k ones is the remainder modulo 2^k. */
  lemma {:induction false} BitsMasked(v: nat, k: nat)
    ensures And(Bits(v), Ones(k)) == Bits(v % Pow2(k))
  {
    hide Plus, And, Bits;
    BitsOne();
    if k == 0 {
      AndZero(Bits(v));
    } else {
      var q, b := v / 2, v % 2;
      var r := q % Pow2(k - 1);
      BitsMasked(q, k - 1);
      BitsDouble(q, b);
      BitsDouble(r, b);
      MaskDouble(Bits(q), Ones(k - 1), Bits(b));
      RemainderDouble(v, Pow2(k - 1));
    }
  }

  lemma AndZero(x: bv64)
    ensures And(x, 0) == 0
  {
  }

  lemma RemainderDouble(v: nat, p: nat)
    requires p > 0
    ensures v % (2 * p) == 2 * (v / 2 % p) + v % 2
  {
    var q := v / 2;
    assert q == p * (q / p) + q % p;
    assert v == (2 * p) * (q / p) + (2 * (q % p) + v % 2);
    Remainder(v, 2 * p, q / p, 2 * (q % p) + v % 2);
  }

  lemma OnesAre()
    ensures Ones(1) == 1 && Ones(12) == 0xfff && Pow2(1) == 2 && Pow2(12) == 4096
  {
    assert Ones(3) == 7;
    assert Ones(6) == 63;
    assert Ones(9) == 511;
    assert Pow2(4) == 16 && Pow2(8) == 256;
  }

  lemma LowMask(v: nat)
    ensures And(Bits(v), 0xfff) == Bits(v % 4096) && And(Bits(v), 1) == Bits(v % 2)
  {
    hide And, Bits, Ones, Pow2;
    OnesAre();
    BitsMasked(v, 12);
    BitsMasked(v, 1);
  }

  lemma RestApart(x: bv64)
    ensures And(And(x, !0xfff), And(x, 0xfff)) == 0 && Or(And(x, !0xfff), And(x, 0xfff)) == x
  {
  }

  lemma Rest(x: bv64)
    ensures And(x, !0xfff) == Minus(x, And(x, 0xfff))
  {
    hide Plus, Minus, And, Or, Xor;
    RestApart(x);
    Disjoint(And(x, !0xfff), And(x, 0xfff));
    PlusMinus(And(x, !0xfff), And(x, 0xfff));
  }

  lemma HighMask(v: nat)
    ensures And(Bits(v), !0xfff) == Bits(v - v % 4096)
  {
    hide Plus, Minus, And, Bits;
    LowMask(v);
    BitsPlus(v - v % 4096, v % 4096);
    PlusMinus(Bits(v - v % 4096), Bits(v % 4096));
    Rest(Bits(v));
  }

  lemma OrOne(x: bv64, even: bv64)
    requires x == even || x == Plus(even, 1)
    requires And(even, 1) == 0
    ensures Or(x, 1) == Plus(even, 1)
  {
  }

  lemma OddMask(v: nat)
    ensures Or(Bits(v), 1) == Bits(v / 2 * 2 + 1)
  {
    hide Plus, Bits, Or, And;
    var even := v / 2 * 2;
    LowMask(even);
    BitsOne();
    BitsPlus(even, 1);
    OrOne(Bits(v), Bits(even));
  }

  lemma OrIs(x: bv64, y: bv64)
    requires And(x, 0xfff) == 0 && And(y, 0xfff) == y
    ensures And(x, y) == 0
  {
  }

  lemma JoinMask(upper: nat, lower: nat)
    requires upper % 4096 == 0 && lower < 4096
    ensures Or(Bits(upper), Bits(lower)) == Bits(upper + lower)
  {
    hide Plus, Bits, Or, And, Xor;
    LowMask(upper);
    LowMask(lower);
    BitsOne();
    OrIs(Bits(upper), Bits(lower));
    Disjoint(Bits(upper), Bits(lower));
    BitsPlus(upper, lower);
  }

  /** reset() takes the fields out of the two numbers drawn by the masks of the code. */
  lemma ResetIs(d: Draw)
    ensures var g := Reset(d);
            && Bits(g.upper) == And(Bits(d.first), !0xfff) && Bits(g.lower) == And(Bits(d.first), 0xfff)
            && Bits(g.increment) == Or(And(Bits(d.second), 0xfff), 1) && g.remaining == 4096
  {
    hide Bits, Or, And;
    HighMask(d.first);
    LowMask(d.first);
    LowMask(d.second);
    OddMask(d.second % BATCH);
  }

  /** An id is upper_bits_ | lower_bits_, after the step (lower_bits_ + increment_) & kBatchMask. */
  lemma NextIs(g: Generator, d: Draw)
    requires g.upper % BATCH == 0
    ensures var h := if g.remaining == 0 then Reset(d) else g;
            var (z, id) := Next(g, d);
            && z.upper == h.upper && z.increment == h.increment && z.remaining == h.remaining - 1
            && Bits(z.lower) == And(Plus(Bits(h.lower), Bits(h.increment)), 0xfff)
            && Bits(id) == Or(Bits(z.upper), Bits(z.lower))
  {
    hide Plus, And, Or, Bits;
    var h := if g.remaining == 0 then Reset(d) else g;
    var (z, id) := Next(g, d);
    BitsPlus(h.lower, h.increment);
    LowMask(h.lower + h.increment);
    JoinMask(z.upper, z.lower);
  }

  // ---- an odd stride is a full cycle modulo 2^k ----

  lemma OddTimesOdd(x: int, y: int)
    ensures ((2 * x + 1) * (2 * y + 1)) % 2 == 1
  {
    assert (2 * x + 1) * (2 * y + 1) == 2 * (2 * x * y + x + y) + 1;
  }

  lemma DoubleFactor(p: int, x: int)
    ensures (2 * p) * x == 2 * (p * x) == p * (2 * x)
  {
  }

  /** An odd factor does not help a product to be a multiple of 2^k. */
  lemma {:induction false} OddDivides(k: nat, x: int, s: int, q: int) returns (y: int)
    requires s % 2 == 1 && x * s == Pow2(k) * q
    ensures x == Pow2(k) * y
  {
    if k == 0 {
      y := x;
    } else {
      var p, h := Pow2(k - 1), x / 2;
      DoubleFactor(p, q);
      if x % 2 == 1 { OddTimesOdd(h, s / 2); }
      DoubleFactor(h, s);
      y := OddDivides(k - 1, h, s, q);
      DoubleFactor(p, y);
    }
  }

  /** Every residue is a multiple of an odd stride. */
  lemma {:induction false} Solve(k: nat, s: int, r: int) returns (n: nat, q: int)
    requires s % 2 == 1
    ensures n < Pow2(k) && n * s == r + Pow2(k) * q
  {
    if k == 0 {
      n, q := 0, -r;
    } else {
      var p := Pow2(k - 1);
      var m, j := Solve(k - 1, s, r);
      if j % 2 == 0 {
        n, q := m, j / 2;
      } else {
        n, q := m + p, (j + s) / 2;
        Distribute(m, p, s, j, r);
      }
      DoubleFactor(p, q);
    }
  }

  lemma Distribute(m: int, p: int, s: int, j: int, r: int)
    requires m * s == r + p * j
    ensures (m + p) * s == r + p * (j + s)
  {
    assert (m + p) * s == m * s + p * s;
    assert p * (j + s) == p * j + p * s;
  }

  lemma Remainder(x: int, p: nat, q: int, r: int)
    requires p > 0 && x == p * q + r && 0 <= r < p
    ensures x % p == r
  {
    var d := x / p - q;
    assert p * (x / p) == p * q + p * d;
    if d >= 1 { ProductAtLeast(p, d); }
    if d <= -1 { ProductAtLeast(p, -d); }
  }

  lemma ProductAtLeast(p: nat, d: int)
    requires d >= 1
    ensures p * d >= p
  {
  }

  /** From any start, an odd stride reaches every residue modulo 2^k ... */
  lemma CycleReaches(k: nat, start: int, s: int, r: nat) returns (n: nat)
    requires s % 2 == 1 && r < Pow2(k)
    ensures 1 <= n <= Pow2(k) && (start + n * s) % Pow2(k) == r
  {
    var p := Pow2(k);
    var q: int;
    n, q := Solve(k, s, r - start);
    if n == 0 {
      n, q := p, q + s;
      assert n * s == r - start + p * q;
    }
    Remainder(start + n * s, p, q, r);
  }

  /** ... and none of them twice in 2^k steps. */
  lemma CycleInjective(k: nat, start: int, s: int, m: nat, n: nat)
    requires s % 2 == 1 && m < n < m + Pow2(k)
    ensures (start + m * s) % Pow2(k) != (start + n * s) % Pow2(k)
  {
    var p := Pow2(k);
    var x, y := start + m * s, start + n * s;
    if x % p == y % p {
      var q := y / p - x / p;
      assert p * (y / p) == p * (x / p) + p * q;
      assert (n - m) * s == p * q;
      var z := OddDivides(k, n - m, s, q);
      if z >= 1 { ProductAtLeast(p, z); }
    }
  }

  // ---- the ids of a run ----

  /** n calls of NewID; the i-th draws `draws(i)` if it has to. */
  function Run(g: Generator, draws: nat -> Draw, n: nat): (r: (Generator, seq<nat>))
    ensures |r.1| == n
  {
    if n == 0 then (g, [])
    else
      var (h, ids) := Run(g, draws, n - 1);
      var (z, id) := Next(h, draws(n - 1));
      (z, ids + [id])
  }

  /** The t-th id of a batch, counted from 1. */
  function Id(d: Draw, t: nat): nat
  {
    var g := Reset(d);
    g.upper + (g.lower + t * g.increment) % BATCH
  }

  /** The generator after t ids of a batch. */
  function Within(d: Draw, t: nat): (g: Generator)
    requires t <= BATCH
    ensures g.remaining == BATCH - t
  {
    var g := Reset(d);
    Generator(g.upper, (g.lower + t * g.increment) % BATCH, g.increment, BATCH - t)
  }

  lemma NextWithin(d: Draw, t: nat, other: Draw)
    requires t < BATCH
    ensures Next(Within(d, t), other) == (Within(d, t + 1), Id(d, t + 1))
  {
    hide Reset;
    var start, s := Reset(d).lower, Reset(d).increment;
    assert (t + 1) * s == t * s + s;
    assert ((start + t * s) % BATCH + s) % BATCH == (start + (t + 1) * s) % BATCH;
  }

  lemma NextFirst(g: Generator, d: Draw)
    requires g.remaining == 0
    ensures Next(g, d) == (Within(d, 1), Id(d, 1))
  {
  }

  /** Where the generator is after n calls: in batch n / 4096, of the draw at its beginning. */
  lemma {:induction false} RunIs(g: Generator, draws: nat -> Draw, n: nat)
    requires g.remaining == 0
    ensures n == 0 ==> Run(g, draws, n).0 == g
    ensures n > 0 ==>
              var d, t := draws((n - 1) / BATCH * BATCH), (n - 1) % BATCH + 1;
              Run(g, draws, n).0 == Within(d, t) && Run(g, draws, n).1[n - 1] == Id(d, t)
  {
    hide Within, Next, Id;
    if n > 0 {
      RunIs(g, draws, n - 1);
      var h := Run(g, draws, n - 1).0;
      var t := (n - 1) % BATCH;
      if t == 0 {
        NextFirst(h, draws(n - 1));
      } else {
        assert (n - 2) / BATCH == (n - 1) / BATCH && (n - 2) % BATCH + 1 == t;
        NextWithin(draws((n - 1) / BATCH * BATCH), t, draws(n - 1));
      }
    }
  }

  lemma {:induction false} RunAt(g: Generator, draws: nat -> Draw, n: nat, i: nat)
    requires g.remaining == 0 && i < n
    ensures Run(g, draws, n).1[i] == Id(draws(i / BATCH * BATCH), i % BATCH + 1)
  {
    hide Id;
    RunIs(g, draws, n);
    if i < n - 1 { RunAt(g, draws, n - 1, i); }
  }

  lemma BatchIsPow2()
    ensures Pow2(LOG_BATCH) == BATCH
  {
    assert Pow2(4) == 16;
    assert Pow2(8) == 256;
  }

  lemma Odd(d: Draw)
    ensures Reset(d).increment % 2 == 1
  {
  }

  /** Within a batch every number of twelve bits comes up ... */
  lemma IdReaches(d: Draw, k: nat) returns (t: nat)
    requires k < BATCH
    ensures 1 <= t <= BATCH && Id(d, t) == Reset(d).upper + k
  {
    hide Reset;
    BatchIsPow2();
    Odd(d);
    t := CycleReaches(LOG_BATCH, Reset(d).lower, Reset(d).increment, k);
  }

  /** ... and only once. */
  lemma IdInjective(d: Draw, s: nat, t: nat)
    requires 1 <= s < t <= BATCH
    ensures Id(d, s) != Id(d, t)
  {
    hide Reset;
    BatchIsPow2();
    Odd(d);
    CycleInjective(LOG_BATCH, Reset(d).lower, Reset(d).increment, s, t);
  }

  /** The upper bits can be read off an id. */
  lemma UpperBits(d: Draw, t: nat)
    ensures Id(d, t) - Id(d, t) % BATCH == Reset(d).upper
  {
  }

  /** The stride of a batch: twelve bits of the second draw, made odd. */
  function Stride(d: Draw): nat
  {
    d.second % 4096 / 2 * 2 + 1
  }

  lemma UpperIs(d: Draw)
    ensures Reset(d).upper == d.first / BATCH * BATCH
  {
  }

  /** Every id of every run: all but its twelve lowest bits are those of the first number drawn for its
      batch, and these count up from that number by the odd stride. */
  lemma EveryId(g: Generator, draws: nat -> Draw, n: nat, i: nat)
    requires g.remaining == 0 && i < n
    ensures var id, d := Run(g, draws, n).1[i], draws(i / 4096 * 4096);
            && id / 4096 == d.first / 4096
            && id % 4096 == (d.first + (i % 4096 + 1) * Stride(d)) % 4096
  {
    RunAt(g, draws, n, i);
    var d := draws(i / BATCH * BATCH);
    assert Stride(d) == Reset(d).increment;
    SameRemainder(d.first, i % BATCH + 1, Stride(d));
  }

  lemma SameRemainder(v: nat, t: nat, s: nat)
    ensures (v % 4096 + t * s) % 4096 == (v + t * s) % 4096
  {
    assert v + t * s == 4096 * (v / 4096) + (v % 4096 + t * s);
  }

  /** The 4096 ids after a reset are those with the upper bits of the number drawn, each exactly once. */
  lemma BatchIsPermutation(g: Generator, draws: nat -> Draw, k: nat) returns (i: nat)
    requires g.remaining == 0 && k < BATCH
    ensures var ids := Run(g, draws, BATCH).1;
            && i < BATCH && ids[i] == draws(0).first / BATCH * BATCH + k
            && forall j :: 0 <= j < BATCH && ids[j] == draws(0).first / BATCH * BATCH + k ==> j == i
  {
    hide Run, Id, Reset;
    var d := draws(0);
    UpperIs(d);
    var t := IdReaches(d, k);
    i := t - 1;
    RunAt(g, draws, BATCH, i);
    forall j | 0 <= j < BATCH && Run(g, draws, BATCH).1[j] == Reset(d).upper + k ensures j == i {
      RunAt(g, draws, BATCH, j);
      if j < i { IdInjective(d, j + 1, i + 1); }
      if i < j { IdInjective(d, i + 1, j + 1); }
    }
  }

  ghost predicate DistinctIds(ids: seq<nat>)
  {
    forall i, j :: 0 <= i < j < |ids| ==> ids[i] != ids[j]
  }

  ghost predicate DistinctUppers(draws: nat -> Draw, batches: nat)
  {
    forall a, b :: 0 <= a < b < batches ==> draws(a * BATCH).first / BATCH != draws(b * BATCH).first / BATCH
  }

  /** The batches that n ids begin. */
  function Begun(n: nat): (batches: nat)
    ensures (batches - 1) * BATCH < n <= batches * BATCH || n == batches == 0
  {
    (n + BATCH - 1) / BATCH
  }

  lemma IdsDiffer(draws: nat -> Draw, n: nat, i: nat, j: nat)
    requires DistinctUppers(draws, Begun(n)) && i < j < n
    ensures Id(draws(i / BATCH * BATCH), i % BATCH + 1) != Id(draws(j / BATCH * BATCH), j % BATCH + 1)
  {
    hide Id, Reset;
    var a, b := i / BATCH, j / BATCH;
    if a == b {
      IdInjective(draws(a * BATCH), i % BATCH + 1, j % BATCH + 1);
    } else {
      UpperBits(draws(a * BATCH), i % BATCH + 1);
      UpperBits(draws(b * BATCH), j % BATCH + 1);
      UpperIs(draws(a * BATCH));
      UpperIs(draws(b * BATCH));
    }
  }

  /** The ids of a run of any length are all different exactly if the numbers drawn at the beginnings of
      its batches differ in more than twelve bits. */
  lemma AllDistinct(g: Generator, draws: nat -> Draw, n: nat)
    requires g.remaining == 0
    ensures DistinctIds(Run(g, draws, n).1) <==> DistinctUppers(draws, Begun(n))
  {
    hide Run, Id, Reset;
    var ids := Run(g, draws, n).1;
    if DistinctUppers(draws, Begun(n)) {
      forall i, j | 0 <= i < j < n ensures ids[i] != ids[j] {
        RunAt(g, draws, n, i);
        RunAt(g, draws, n, j);
        IdsDiffer(draws, n, i, j);
      }
    } else {
      var a, b :| 0 <= a < b < Begun(n) && draws(a * BATCH).first / BATCH == draws(b * BATCH).first / BATCH;
      UpperIs(draws(a * BATCH));
      UpperIs(draws(b * BATCH));
      var j := b * BATCH;
      RunAt(g, draws, n, j);
      LowerBits(draws(j), 1);
      var i := SameIdIn(g, draws, n, a, Id(draws(j), 1) - Reset(draws(j)).upper);
      assert ids[i] == ids[j];
    }
  }

  lemma LowerBits(d: Draw, t: nat)
    ensures 0 <= Id(d, t) - Reset(d).upper < BATCH
  {
  }

  /** A whole batch has an id with any lower bits. */
  lemma SameIdIn(g: Generator, draws: nat -> Draw, n: nat, a: nat, k: nat) returns (i: nat)
    requires g.remaining == 0 && (a + 1) * BATCH <= n && k < BATCH
    ensures a * BATCH <= i < (a + 1) * BATCH && Run(g, draws, n).1[i] == Reset(draws(a * BATCH)).upper + k
  {
    hide Run, Id, Reset;
    var t := IdReaches(draws(a * BATCH), k);
    i := a * BATCH + t - 1;
    RunAt(g, draws, n, i);
  }
}
