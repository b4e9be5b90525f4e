/** How often one message can be replaced: every replacement multiplies its premium, and the ceiling stops it
    (baseFeeAuto/mpool.go). */
module Premium {
  import opened Prelude
  import opened FeeControl
  import opened Reprice

  /** The least premium from which on every push raises the premium. */
  function Threshold(c: Setting): nat
    requires c.premiumSeed > 100
  {
    100 * CeilDiv(100, c.premiumSeed - 100)
  }

  /** Exactly when a push raises the premium. */
  lemma {:induction false} PushRaisesIff(c: Setting, p: int)
    ensures NextPremium(c, p) > p <==> p / 100 * (c.premiumSeed - 100) > p % 100
  {
    var q := p / 100;
    assert p == 100 * q + p % 100;
    assert q * (c.premiumSeed - 100) == q * c.premiumSeed - 100 * q;
  }

  lemma {:induction false} AboveThreshold(c: Setting, p: int)
    requires c.premiumSeed > 100 && p >= Threshold(c)
    ensures NextPremium(c, p) > p
  {
    var d, q := c.premiumSeed - 100, CeilDiv(100, c.premiumSeed - 100);
    CeilDivSpec(100, d, q);
    assert p / 100 >= q;
    assert p / 100 * d >= q * d by {
      assert (p / 100 - q) * d >= 0;
      assert p / 100 * d == (p / 100 - q) * d + q * d;
    }
    PushRaisesIff(c, p);
  }

  /** The threshold is the least one. */
  lemma {:induction false} ThresholdIsExact(c: Setting, t: int)
    requires c.premiumSeed > 100
    ensures (forall p :: p >= t ==> NextPremium(c, p) > p) <==> t >= Threshold(c)
  {
    if t >= Threshold(c) {
      forall p | p >= t
        ensures NextPremium(c, p) > p
      {
        AboveThreshold(c, p);
      }
    } else {
      var p := Threshold(c) - 1;
      CeilDivSpec(100, c.premiumSeed - 100, CeilDiv(100, c.premiumSeed - 100) - 1);
      PushRaisesIff(c, p);
      assert p / 100 == CeilDiv(100, c.premiumSeed - 100) - 1 && p % 100 == 99;
      assert p >= t && NextPremium(c, p) <= p;
    }
  }

  /** A premium below 100 is wiped out by one push, and zero stays zero. */
  lemma {:induction false} LowPremiumCollapses(c: Setting, p: int)
    requires 0 <= p < 100
    ensures NextPremium(c, p) == 0 && NextPremium(c, NextPremium(c, p)) == 0
  {
  }

  /** Once the next premium would be above the ceiling, no input ever replaces the message again. */
  lemma {:induction false} RefusalIsPermanent(c: Setting, m: Message, ins: seq<Input>)
    requires NextPremium(c, m.gasPremium) > c.limitMaxPremium
    ensures Pushes(c, m, ins) == 0 && Final(c, m, ins) == m
    decreases |ins|
  {
    if ins == [] {
    } else {
      RefusalIsPermanent(c, m, ins[1..]);
    }
  }

  /** From the threshold on, every push adds at least one to a premium that may not pass the ceiling: one
      nonce is replaced only finitely often, whatever the inputs are. */
  lemma {:induction false} PushesRaisePremium(c: Setting, m: Message, ins: seq<Input>)
    requires c.premiumSeed > 100 && m.gasPremium >= Threshold(c)
    ensures Final(c, m, ins).gasPremium >= m.gasPremium + Pushes(c, m, ins)
    ensures if Pushes(c, m, ins) > 0 then Final(c, m, ins).gasPremium <= c.limitMaxPremium else Final(c, m, ins) == m
    ensures m.gasPremium <= c.limitMaxPremium ==> Pushes(c, m, ins) <= c.limitMaxPremium - m.gasPremium
    decreases |ins|
  {
    if ins == [] {
    } else {
      AboveThreshold(c, m.gasPremium);
      PushesRaisePremium(c, Eval(c, m, ins[0]).0, ins[1..]);
    }
  }

  /** The premium after `n` pushes. */
  function Grown(c: Setting, p: int, n: nat): int
    decreases n
  {
    if n == 0 then p else Grown(c, NextPremium(c, p), n - 1)
  }

  lemma {:induction false} PushesGrowPremium(c: Setting, m: Message, ins: seq<Input>)
    ensures Final(c, m, ins).gasPremium == Grown(c, m.gasPremium, Pushes(c, m, ins))
    ensures forall k :: 0 < k <= Pushes(c, m, ins) ==> Grown(c, m.gasPremium, k) <= c.limitMaxPremium
    decreases |ins|
  {
    if ins == [] {
    } else {
      var m' := Eval(c, m, ins[0]).0;
      PushesGrowPremium(c, m', ins[1..]);
      if Eval(c, m, ins[0]).1 {
        forall k | 0 < k <= Pushes(c, m, ins)
          ensures Grown(c, m.gasPremium, k) <= c.limitMaxPremium
        {
          assert Grown(c, m.gasPremium, k) == Grown(c, m'.gasPremium, k - 1);
          if k - 1 == 0 {
            assert m'.gasPremium <= c.limitMaxPremium;
          }
        }
      }
    }
  }

  function Pow(b: nat, n: nat): nat {
    if n == 0 then 1 else b * Pow(b, n - 1)
  }

  /** From a premium of 100*q on, a push grows the premium by a factor of at least a/b. */
  predicate GrowsBy(c: Setting, a: nat, b: nat, q: nat) {
    a >= b > 0 && q * (b * c.premiumSeed - 100 * a) >= 99 * a
  }

  lemma {:induction false} PositiveFactor(q: nat, d: int)
    requires q * d > 0
    ensures d > 0
  {
  }

  /** What is lost by the division is at most 99. */
  lemma {:induction false} PushGrows(c: Setting, a: nat, b: nat, q: nat, p: int)
    requires GrowsBy(c, a, b, q) && p >= 100 * q
    ensures b * NextPremium(c, p) >= a * p && NextPremium(c, p) >= p
  {
    var d, k, r := b * c.premiumSeed - 100 * a, p / 100, p % 100;
    PositiveFactor(q, d);
    Scale(d, q, k);
    Scale(a, r, 99);
    assert b * (k * c.premiumSeed) == d * k + 100 * (a * k);
    assert a * p == 100 * (a * k) + a * r;
    GrowthIsRise(a, b, p, NextPremium(c, p));
  }

  lemma {:induction false} GrowthIsRise(a: nat, b: nat, p: int, p': int)
    requires a >= b > 0 && p >= 0 && b * p' >= a * p
    ensures p' >= p
  {
    Scale(p, b, a);
    if p' < p {
      Scale(b, p' + 1, p);
    }
  }

  /** The threshold is the least multiple of 100 for its factor. */
  lemma {:induction false} GrowsByIff(c: Setting, a: nat, b: nat, q: nat)
    requires a >= b > 0
    ensures GrowsBy(c, a, b, q) <==> forall p :: p >= 100 * q ==> b * NextPremium(c, p) >= a * p
  {
    if GrowsBy(c, a, b, q) {
      forall p | p >= 100 * q
        ensures b * NextPremium(c, p) >= a * p
      {
        PushGrows(c, a, b, q, p);
      }
    }
    if forall p :: p >= 100 * q ==> b * NextPremium(c, p) >= a * p {
      var p := 100 * q + 99;
      assert p / 100 == q && NextPremium(c, p) == q * c.premiumSeed;
      assert b * NextPremium(c, p) >= a * p;
      assert q * (b * c.premiumSeed - 100 * a) == b * (q * c.premiumSeed) - a * (100 * q);
    }
  }

  /** Every seed above 100 grows premiums, by half its margin at least, from a threshold on. */
  lemma {:induction false} EverySeedGrows(c: Setting)
    requires c.premiumSeed > 100
    ensures GrowsBy(c, c.premiumSeed + 100, 200, CeilDiv(99 * (c.premiumSeed + 100), 100 * (c.premiumSeed - 100)))
  {
    var a, d := c.premiumSeed + 100, 100 * (c.premiumSeed - 100);
    CeilDivSpec(99 * a, d, CeilDiv(99 * a, d));
    assert 200 * c.premiumSeed - 100 * a == d;
  }

  /** `n` pushes grow the premium by the n-th power of the factor. */
  lemma {:induction false} GrowthCompounds(c: Setting, a: nat, b: nat, q: nat, p: int, n: nat)
    requires GrowsBy(c, a, b, q) && p >= 100 * q
    ensures Pow(b, n) * Grown(c, p, n) >= Pow(a, n) * p
    decreases n
  {
    if n == 0 {
    } else {
      var p', x, y := NextPremium(c, p), Pow(b, n - 1), Pow(a, n - 1);
      PushGrows(c, a, b, q, p);
      GrowthCompounds(c, a, b, q, p', n - 1);
      Compound(x, y, a, b, p, p', Grown(c, p', n - 1));
    }
  }

  lemma {:induction false} Compound(x: nat, y: nat, a: nat, b: nat, p: int, p': int, g: int)
    requires b * p' >= a * p && x * g >= y * p'
    ensures (b * x) * g >= (a * y) * p
  {
    Scale(b, y * p', x * g);
    Scale(y, a * p, b * p');
    assert (b * x) * g == b * (x * g) && b * (y * p') == y * (b * p') && (a * y) * p == y * (a * p);
  }

  /** The number of pushes is logarithmic: each one is worth the factor, and all of them fit under the ceiling. */
  lemma {:induction false} PushesAreLogarithmic(c: Setting, a: nat, b: nat, q: nat, m: Message, ins: seq<Input>)
    requires GrowsBy(c, a, b, q) && m.gasPremium >= 100 * q && Pushes(c, m, ins) > 0
    ensures var n := Pushes(c, m, ins); Pow(a, n) * m.gasPremium <= Pow(b, n) * c.limitMaxPremium
  {
    var n := Pushes(c, m, ins);
    PushesGrowPremium(c, m, ins);
    GrowthCompounds(c, a, b, q, m.gasPremium, n);
    Scale(Pow(b, n), Grown(c, m.gasPremium, n), c.limitMaxPremium);
  }

  /** With the default premium seed of 126 every push from 12400 on is worth a quarter more. */
  lemma {:induction false} QuarterGrowth(c: Setting)
    requires c.premiumSeed == 126
    ensures GrowsBy(c, 5, 4, 124)
  {
  }

  lemma {:induction false} GrowsAlong(c: Setting, ps: seq<int>)
    requires ps != [] && forall k :: 0 <= k < |ps| - 1 ==> NextPremium(c, ps[k]) == ps[k + 1]
    ensures Grown(c, ps[0], |ps| - 1) == ps[|ps| - 1]
    decreases |ps|
  {
    if |ps| > 1 {
      GrowsAlong(c, ps[1..]);
    }
  }

  /** With the default seed and ceiling, a message that starts at the usual premium of 100000 is replaced at
      most twelve times. */
  lemma {:induction false} AtMostTwelvePushes(c: Setting, m: Message, ins: seq<Input>)
    requires c.premiumSeed == 126 && c.limitMaxPremium == 1900000 && m.gasPremium == 100000
    ensures Pushes(c, m, ins) <= 12
  {
    var ps := [100000, 126000, 158760, 199962, 251874, 317268, 399672, 503496, 634284, 799092,
               1006740, 1268442, 1598184, 2013606];
    GrowsAlong(c, ps);
    PushesGrowPremium(c, m, ins);
    var n := |ps| - 1;
    assert Grown(c, m.gasPremium, n) > c.limitMaxPremium;
  }
}
