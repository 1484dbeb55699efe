/** A minimum asked at one rate against an output paid at another, each with its floors, for every amount. */
module Rates {
  import opened Types
  import opened Amounts
  import opened Prices

  /** The minimum asked at a rate of `n` per `d`, when `keep` of 10000 is kept. */
  function Asked(a: nat, n: nat, d: nat, keep: nat): int
    requires d > 0
  {
    a * n / d * keep / BPS
  }

  /** What is left of an amount after the fee. */
  function Net(a: nat, feeBps: uint16): (r: nat)
    requires feeBps <= BPS
  {
    MulBpsWithin(a, feeBps);
    a - MulBps(a, feeBps)
  }

  function Times(x: nat, y: nat): (r: nat)
    ensures r == x * y
  {
    ProductMono(0, 0, x, y);
    x * y
  }

  lemma ExactQuotient(q: nat, d: nat)
    requires d > 0
    ensures d * q >= 0 && d * q / d == q && q * d / d == q
  {
    ProductMono(0, 0, d, q);
    FloorDiv(d * q, d);
    Cancel(d, d * q / d, q);
    FloorAtLeast(d * q, d, q);
  }

  /** At every multiple of `BPS * d1 * d2` nothing is rounded. */
  lemma AtMultiples(x: nat, n: nat, d1: nat, d2: nat, keep: nat, feeBps: uint16)
    requires d1 > 0 && d2 > 0 && feeBps <= BPS
    ensures var a := Times(BPS * d1, x * d2);
      Asked(a, n, d1, keep) == x * d2 * n * keep && Net(a, feeBps) == d1 * (x * d2) * (BPS - feeBps)
  {
    var y := Times(x, d2);
    var a := Times(BPS * d1, y);
    var q := Times(y, n);
    assert a * n == d1 * (BPS * q);
    ExactQuotient(BPS * q, d1);
    var r := Times(q, keep);
    assert BPS * q * keep == BPS * r;
    ExactQuotient(r, BPS);
    var z := Times(d1, y);
    assert a * feeBps == BPS * (z * feeBps);
    ExactQuotient(Times(z, feeBps), BPS);
    assert a - z * feeBps == z * (BPS - feeBps);
  }

  /** Where the rate asked is at most the rate paid, the fee taken off, every amount clears. */
  lemma ClearsWhen(a: nat, n1: nat, d1: nat, n2: nat, d2: nat, keep: nat, feeBps: uint16)
    requires d1 > 0 && d2 > 0 && feeBps <= BPS
    requires n1 * d2 * keep <= n2 * d1 * (BPS - feeBps)
    ensures Net(a, feeBps) * n2 >= 0 && Asked(a, n1, d1, keep) <= Net(a, feeBps) * n2 / d2
  {
    var net, gross := Net(a, feeBps), Times(a, n1);
    var q := gross / d1;
    FloorDiv(gross, d1);
    var m := Times(q, keep) / BPS;
    FloorDiv(Times(q, keep), BPS);
    AskedAtMost(a, n1, d1, keep, q, m);
    NetAtLeast(a, feeBps);
    Crossed(a, net, n1, d1, n2, d2, keep, BPS - feeBps, m);
    FloorAtLeast(Times(net, n2), d2, m);
  }

  lemma AskedAtMost(a: nat, n: nat, d: nat, keep: nat, q: nat, m: nat)
    requires d * q <= a * n && BPS * m <= q * keep
    ensures BPS * (m * d) <= a * n * keep
  {
    MulMono(BPS * m, q * keep, d);
    MulMono(d * q, a * n, keep);
    assert BPS * m * d == BPS * (m * d) && q * keep * d == d * q * keep;
  }

  lemma NetAtLeast(a: nat, feeBps: uint16)
    requires feeBps <= BPS
    ensures a * (BPS - feeBps) <= BPS * Net(a, feeBps)
  {
    MulBpsFloor(a, feeBps);
    assert a * (BPS - feeBps) == a * BPS - a * feeBps;
  }

  lemma Crossed(a: nat, net: nat, n1: nat, d1: nat, n2: nat, d2: nat, keep: nat, left: nat, m: nat)
    requires d1 > 0
    requires n1 * d2 * keep <= n2 * d1 * left
    requires BPS * (m * d1) <= a * n1 * keep && a * left <= BPS * net
    ensures d2 * m <= net * n2
  {
    var k := BPS * d1;
    MulMono(BPS * (m * d1), a * n1 * keep, d2);
    assert BPS * (m * d1) * d2 == k * (d2 * m);
    MulMono(n1 * d2 * keep, n2 * d1 * left, a);
    assert a * n1 * keep * d2 == a * (n1 * d2 * keep);
    var u := Times(n2, d1);
    MulMono(a * left, BPS * net, u);
    assert a * (n2 * d1 * left) == u * (a * left);
    assert u * (BPS * net) == k * (net * n2);
    Cancel(k, d2 * m, net * n2);
  }

  /** Otherwise every positive multiple of `BPS * d1 * d2` misses. */
  lemma MissesAt(x: nat, n1: nat, d1: nat, n2: nat, d2: nat, keep: nat, feeBps: uint16)
    requires x > 0 && d1 > 0 && d2 > 0 && feeBps <= BPS
    requires n1 * d2 * keep > n2 * d1 * (BPS - feeBps)
    ensures var a := Times(BPS * d1, x * d2);
      Net(a, feeBps) * n2 >= 0 && Asked(a, n1, d1, keep) > Net(a, feeBps) * n2 / d2
  {
    AtMultiples(x, n1, d1, d2, keep, feeBps);
    var left := BPS - feeBps;
    var paid := Times(Times(Times(d1, x), left), n2);
    assert d1 * (x * d2) * left * n2 == d2 * paid;
    ExactQuotient(paid, d2);
    assert paid == x * (n2 * d1 * left);
    assert x * d2 * n1 * keep == x * (n1 * d2 * keep);
    MulMono(n2 * d1 * left + 1, n1 * d2 * keep, x);
  }

  /** Of two rates the higher asks for at least as much, of every amount. */
  lemma AskedMono(a: nat, n1: nat, d1: nat, n2: nat, d2: nat, keep: nat)
    requires d1 > 0 && d2 > 0 && n1 * d2 <= n2 * d1
    ensures Asked(a, n1, d1, keep) <= Asked(a, n2, d2, keep)
  {
    var q1, q2 := Times(a, n1) / d1, Times(a, n2) / d2;
    FloorDiv(Times(a, n1), d1);
    FloorDiv(Times(a, n2), d2);
    QuotientMono(a, n1, d1, n2, d2, q1);
    MulMono(q1, q2, keep);
    FloorMono(Times(q1, keep), Times(q2, keep), BPS);
  }

  lemma QuotientMono(a: nat, n1: nat, d1: nat, n2: nat, d2: nat, q: nat)
    requires d1 > 0 && d2 > 0 && n1 * d2 <= n2 * d1 && d1 * q <= a * n1
    ensures q <= Times(a, n2) / d2
  {
    MulMono(d1 * q, a * n1, d2);
    MulMono(n1 * d2, n2 * d1, a);
    assert d1 * q * d2 == d1 * (d2 * q) && a * n1 * d2 == a * (n1 * d2) && a * (n2 * d1) == d1 * Times(a, n2);
    Cancel(d1, d2 * q, Times(a, n2));
    FloorAtLeast(Times(a, n2), d2, q);
  }

  /** And more, wherever nothing is rounded. */
  lemma AskedMoreAt(x: nat, n1: nat, d1: nat, n2: nat, d2: nat, keep: nat)
    requires x > 0 && d1 > 0 && d2 > 0 && keep > 0 && n1 * d2 > n2 * d1
    ensures var a := Times(BPS * d1, x * d2);
      Asked(a, n1, d1, keep) > Asked(a, n2, d2, keep)
  {
    hide Asked;
    AskedAt(x, n1, d1, d2, keep);
    AskedAt(x, n2, d2, d1, keep);
    SameProduct(BPS * d1, x * d2, BPS * d2, x * d1, BPS, d1, x, d2);
    StrictScale(x, keep, n2 * d1, n1 * d2);
  }

  lemma AskedAt(x: nat, n: nat, d1: nat, d2: nat, keep: nat)
    requires d1 > 0 && d2 > 0
    ensures Asked(Times(BPS * d1, x * d2), n, d1, keep) == (x * keep) * (n * d2)
  {
    hide Asked, Net;
    AtMultiples(x, n, d1, d2, keep, 0);
    Rearrange(x, d2, n, keep);
  }

  lemma StrictScale(x: nat, keep: nat, u: int, v: int)
    requires x > 0 && keep > 0 && u < v
    ensures (x * keep) * u < (x * keep) * v
  {
    ProductMono(1, 1, x, keep);
    MulMono(u + 1, v, x * keep);
  }

  lemma Rearrange(x: int, d: int, n: int, keep: int)
    ensures x * d * n * keep == (x * keep) * (n * d)
  {
    assert x * d * n == x * (n * d);
    assert x * (n * d) * keep == (x * keep) * (n * d);
  }

  lemma SameProduct(u: nat, v: nat, u': nat, v': nat, b: nat, d1: nat, x: nat, d2: nat)
    requires u == b * d1 && v == x * d2 && u' == b * d2 && v' == x * d1
    ensures Times(u, v) == Times(u', v')
  {
    assert b * d1 * (x * d2) == b * d2 * (x * d1);
  }
}
