/** Basis-point arithmetic, and how a position's remaining size decays as levels fire. */
module Amounts {
  import opened Types

  const BPS := 10000

  /** `big.Int.Div` is Euclidean, as `/` is here. */
  function MulBps(amount: int, bps: uint16): int {
    amount * bps / BPS
  }

  function Clamp(x: int): int {
    if x <= 0 then 0 else x
  }

  /** What is left after a level of `bps` fires on `remaining`. */
  function Left(remaining: int, bps: uint16): int {
    Clamp(remaining - MulBps(remaining, bps))
  }

  function Sum(s: seq<int>): int {
    if s == [] then 0 else Sum(s[..|s| - 1]) + s[|s| - 1]
  }

  lemma SumSnoc(s: seq<int>, x: int)
    ensures Sum(s + [x]) == Sum(s) + x
  {
    assert (s + [x])[..|s + [x]| - 1] == s;
  }

  lemma {:induction false} SumUpdate(s: seq<int>, i: nat, x: int)
    requires i < |s|
    ensures Sum(s[i := x]) == Sum(s) - s[i] + x
  {
    var n := |s| - 1;
    if i == n {
      assert s[i := x][..n] == s[..n];
    } else {
      assert s[i := x][..n] == s[..n][i := x];
      SumUpdate(s[..n], i, x);
    }
  }

  /** With every part at least 1, a part worth the whole limit is the only part. */
  lemma {:induction false} SumLeavesNoRoom(s: seq<int>, i: nat)
    requires i < |s| && forall j :: 0 <= j < |s| ==> s[j] >= 1
    ensures Sum(s) >= s[i] + |s| - 1
  {
    var n := |s| - 1;
    if i == n {
      SumAtLeastLength(s[..n]);
    } else {
      SumLeavesNoRoom(s[..n], i);
    }
  }

  lemma {:induction false} SumAtLeastLength(s: seq<int>)
    requires forall j :: 0 <= j < |s| ==> s[j] >= 1
    ensures Sum(s) >= |s|
  {
    if s == [] {
    } else {
      SumAtLeastLength(s[..|s| - 1]);
    }
  }

  lemma {:induction false} SumAtMost(s: seq<int>, top: nat)
    requires forall j :: 0 <= j < |s| ==> 0 <= s[j] <= top
    ensures 0 <= Sum(s) <= |s| * top
  {
    if s == [] {
    } else {
      SumAtMost(s[..|s| - 1], top);
      assert |s| * top == (|s| - 1) * top + top;
    }
  }

  // ---- One level ----

  lemma MulBpsFloor(amount: nat, bps: uint16)
    ensures 0 <= MulBps(amount, bps)
    ensures BPS * MulBps(amount, bps) <= amount * bps < BPS * (MulBps(amount, bps) + 1)
  {
    assert amount * bps >= 0;
  }

  /** A portion of at most 10000 never takes more than there is, and takes all of it only when it is 10000. */
  lemma MulBpsWithin(amount: nat, bps: uint16)
    requires bps <= BPS
    ensures 0 <= MulBps(amount, bps) <= amount
    ensures amount > 0 ==> (MulBps(amount, bps) == amount <==> bps == BPS)
  {
    MulBpsFloor(amount, bps);
    if bps < BPS {
      MulMono(bps, BPS - 1, amount);
    }
  }

  lemma MulMono(x: int, y: int, z: nat)
    requires x <= y
    ensures z * x <= z * y && x * z <= y * z
  {
  }

  /**
   The clamp to zero in executeTrigger loses size exactly when the portion exceeds 10000 by enough
   that the excess on this size reaches one unit. OpenPosition rules such portions out; AddLevel does not.
   */
  lemma ClampDiscardsExactlyWhen(remaining: nat, bps: uint16)
    ensures Left(remaining, bps) + MulBps(remaining, bps) == remaining <==> remaining * (bps - BPS) < BPS
  {
    MulBpsFloor(remaining, bps);
    assert remaining * (bps - BPS) == remaining * bps - remaining * BPS;
  }

  /** A level of 20000 sells a size of 100 and is recorded as having sold 200. */
  lemma ClampDiscardsExample()
    ensures Left(100, 20000) == 0 && MulBps(100, 20000) == 200
  {
  }

  // ---- A sequence of levels ----

  /** The remaining size after levels with these portions have fired in this order. */
  function RemainingAfter(total: int, portions: seq<uint16>): int {
    if portions == [] then total
    else Left(RemainingAfter(total, portions[..|portions| - 1]), portions[|portions| - 1])
  }

  ghost predicate Portions(portions: seq<uint16>) {
    forall i :: 0 <= i < |portions| ==> portions[i] <= BPS
  }

  lemma RemainingAfterSnoc(total: int, portions: seq<uint16>, b: uint16)
    ensures RemainingAfter(total, portions + [b]) == Left(RemainingAfter(total, portions), b)
  {
    assert (portions + [b])[..|portions + [b]| - 1] == portions;
  }

  lemma {:induction false} RemainingWithin(total: nat, portions: seq<uint16>)
    requires Portions(portions)
    ensures 0 <= RemainingAfter(total, portions) <= total
  {
    if portions == [] {
    } else {
      RemainingWithin(total, portions[..|portions| - 1]);
      MulBpsWithin(RemainingAfter(total, portions[..|portions| - 1]), portions[|portions| - 1]);
    }
  }

  /** A positive size survives until a 10000-bps level fires, however small it gets. */
  lemma {:induction false} RemainingPositive(total: nat, portions: seq<uint16>)
    requires Portions(portions)
    ensures RemainingAfter(total, portions) > 0 <==> total > 0 && BPS !in portions
  {
    if portions == [] {
    } else {
      var init, b := portions[..|portions| - 1], portions[|portions| - 1];
      assert portions == init + [b];
      RemainingPositive(total, init);
      RemainingWithin(total, init);
      MulBpsWithin(RemainingAfter(total, init), b);
    }
  }

  function Power(k: nat): (r: nat)
    ensures r > 0
  {
    if k == 0 then 1 else BPS * Power(k - 1)
  }

  /** The product of what each portion leaves, in basis points. */
  function KeptProduct(portions: seq<uint16>): int {
    if portions == [] then 1
    else KeptProduct(portions[..|portions| - 1]) * (BPS - portions[|portions| - 1])
  }

  /** One firing keeps the exact share, rounded up. */
  lemma LeftRoundsUp(r: nat, b: uint16)
    requires b <= BPS
    ensures r * (BPS - b) <= BPS * Left(r, b) < r * (BPS - b) + BPS
  {
    MulBpsFloor(r, b);
    MulBpsWithin(r, b);
    assert r * (BPS - b) == r * BPS - r * b;
  }

  /**
   Two-sided decay bound: the remaining size is the exact product of kept shares, plus at most one
   unit of rounding for each level that fired.
   */
  lemma {:induction false} DecayBounds(total: nat, portions: seq<uint16>)
    requires Portions(portions)
    ensures total * KeptProduct(portions) <= Power(|portions|) * RemainingAfter(total, portions)
    ensures Power(|portions|) * RemainingAfter(total, portions) <= total * KeptProduct(portions) + |portions| * Power(|portions|)
  {
    if portions == [] {
    } else {
      var n := |portions| - 1;
      var init, b := portions[..n], portions[n];
      DecayBounds(total, init);
      RemainingWithin(total, init);
      LeftRoundsUp(RemainingAfter(total, init), b);
      DecayStep(Power(n), RemainingAfter(total, init), Left(RemainingAfter(total, init), b), BPS - b,
                total * KeptProduct(init), n);
      assert total * KeptProduct(portions) == total * KeptProduct(init) * (BPS - b) by {
        Associative(total, KeptProduct(init), BPS - b);
      }
    }
  }

  lemma Associative(x: int, y: int, z: int)
    ensures x * (y * z) == x * y * z
  {
  }

  lemma DecayStep(p: nat, r: nat, r': nat, keep: nat, low: int, n: nat)
    requires keep <= BPS
    requires low <= p * r <= low + n * p
    requires r * keep <= BPS * r' < r * keep + BPS
    ensures low * keep <= BPS * p * r' <= low * keep + (n + 1) * (BPS * p)
  {
    assert BPS * p * r' == p * (BPS * r');
    assert p * (r * keep) <= p * (BPS * r') by { MulMono(r * keep, BPS * r', p); }
    assert p * (BPS * r') <= p * (r * keep + BPS) by { MulMono(BPS * r', r * keep + BPS, p); }
    assert p * (r * keep) == p * r * keep;
    assert low * keep <= p * r * keep by { MulMono(low, p * r, keep); }
    assert p * r * keep <= (low + n * p) * keep by { MulMono(p * r, low + n * p, keep); }
    assert (low + n * p) * keep == low * keep + n * p * keep;
    assert n * p * keep <= n * p * BPS by { MulMono(keep, BPS, n * p); }
    assert p * (r * keep + BPS) == p * (r * keep) + p * BPS;
    assert n * p * BPS + p * BPS == (n + 1) * (BPS * p) by { Associative(n, p, BPS); }
  }

  /** However the portions are ordered, what remains is at least the total less their plain sum. */
  lemma {:induction false} RemainingAtLeastSum(total: nat, portions: seq<uint16>)
    requires Portions(portions)
    ensures BPS * RemainingAfter(total, portions) >= total * (BPS - Sum(portions))
  {
    if portions == [] {
    } else {
      var n := |portions| - 1;
      var init, b := portions[..n], portions[n];
      RemainingAtLeastSum(total, init);
      RemainingWithin(total, init);
      var r := RemainingAfter(total, init);
      LeftRoundsUp(r, b);
      assert r * (BPS - b) == r * BPS - r * b;
      MulMono(r, total, b);
      assert total * (BPS - Sum(init)) - total * b == total * (BPS - Sum(portions)) by {
        assert Sum(portions) == Sum(init) + b;
        Distribute(total, BPS - Sum(init), b);
      }
    }
  }

  lemma Distribute(x: int, y: int, z: int)
    ensures x * y - x * z == x * (y - z)
  {
  }

  /**
   How little a sequence of portions can leave and how much: the product of the kept shares up to one
   unit a level, at least the total less the plain sum, and nothing only if some level takes 10000.
   */
  ghost predicate DecayLaw(total: int, left: int, portions: seq<uint16>) {
    var k, n := KeptProduct(portions), |portions|;
    && total * k <= Power(n) * left <= total * k + n * Power(n)
    && BPS * left >= total * (BPS - Sum(portions))
    && (left > 0 <==> BPS !in portions)
  }

  lemma DecayLawHolds(total: nat, portions: seq<uint16>)
    requires total > 0 && Portions(portions)
    ensures DecayLaw(total, RemainingAfter(total, portions), portions)
  {
    DecayBounds(total, portions);
    RemainingAtLeastSum(total, portions);
    RemainingPositive(total, portions);
  }
}
