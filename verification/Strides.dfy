/** Picking at every g-th value of a shared counter: when n such picks go once around a list of n. */
module Strides {
  import Rotation
  import opened SharedCounter

  predicate Divides(d: nat, a: nat)
    requires d > 0
  {
    a % d == 0
  }

  ghost predicate Coprime(g: nat, n: nat) {
    forall d: nat :: d > 1 ==> !(Divides(d, g) && Divides(d, n))
  }

  lemma DividesIff(d: nat, a: nat, q: nat)
    requires d > 0 && a == d * q
    ensures Divides(d, a) && a / d == q
  {
    Rotation.DivisionIsUnique(a, d, q, 0);
    Cancel(d, a / d, q);
  }

  lemma Cancel(m: nat, a: nat, b: nat)
    requires m > 0 && m * a == m * b
    ensures a == b
  {
    if a < b {
      Rotation.Spacing(m, a, b);
    } else if b < a {
      Rotation.Spacing(m, b, a);
    }
  }

  // ----- Coming back early -----

  /** After `j` strides of `g` the position repeats. */
  predicate Returns(j: nat, g: nat, n: nat)
    requires n > 0
  {
    Divides(n, j * g)
  }

  lemma {:induction false} FirstReturn(j: nat, g: nat, n: nat) returns (m: nat)
    requires n > 0 && j > 0 && Returns(j, g, n)
    ensures 0 < m <= j && Returns(m, g, n)
    ensures forall i :: 0 < i < m ==> !Returns(i, g, n)
  {
    if i :| 0 < i < j && Returns(i, g, n) {
      m := FirstReturn(i, g, n);
    } else {
      m := j;
    }
  }

  /** The first return divides the length of the list. */
  lemma FirstReturnDivides(m: nat, g: nat, n: nat)
    requires n > 0 && m > 0 && Returns(m, g, n)
    requires forall i :: 0 < i < m ==> !Returns(i, g, n)
    ensures Divides(m, n)
  {
    var q, r, t := n / m, n % m, m * g / n;
    assert n == m * q + r && m * g == n * t;
    Remaining(n, m, q, r, g, t);
    if r > 0 {
      DividesIff(n, r * g, g - q * t);
      assert Returns(r, g, n);
    }
  }

  lemma Remaining(n: nat, m: nat, q: nat, r: nat, g: nat, t: nat)
    requires n > 0 && n == m * q + r && m * g == n * t
    ensures g - q * t >= 0 && r * g == n * (g - q * t)
  {
    assert q * (m * g) == q * (n * t) == n * (q * t);
    assert n * g == (m * q + r) * g == q * (m * g) + r * g;
    assert r * g == n * g - n * (q * t) == n * (g - q * t);
    if g - q * t < 0 {
      Rotation.Spacing(n, g, q * t);
    }
  }

  /** An early return gives a common factor. */
  lemma FactorFromReturn(j: nat, g: nat, n: nat)
    requires 0 < j < n && Returns(j, g, n)
    ensures !Coprime(g, n)
  {
    var m := FirstReturn(j, g, n);
    FirstReturnDivides(m, g, n);
    var d, t := n / m, m * g / n;
    assert n == m * d && m * g == n * t;
    assert m * (d * t) == (m * d) * t;
    Cancel(m, g, d * t);
    assert d > 0;
    DividesIff(d, g, t);
    DividesIff(d, n, m);
    assert d != 1;
  }

  /** A common factor gives an early return. */
  lemma ReturnFromFactor(d: nat, g: nat, n: nat)
    requires n > 0 && d > 1 && Divides(d, g) && Divides(d, n)
    ensures 0 < n / d < n && Returns(n / d, g, n)
  {
    var j, h := n / d, g / d;
    assert n == d * j && g == d * h;
    assert j > 0;
    Rotation.Spacing(j, 1, d);
    assert j * (d * h) == (d * j) * h;
    DividesIff(n, j * g, h);
  }

  /** The strides stay on new positions for a whole round exactly when `g` and `n` have no common factor. */
  lemma CoprimeIff(g: nat, n: nat)
    requires n > 0
    ensures Coprime(g, n) <==> forall j :: 0 < j < n ==> !Returns(j, g, n)
  {
    if j :| 0 < j < n && Returns(j, g, n) {
      FactorFromReturn(j, g, n);
    } else if d: nat :| d > 1 && Divides(d, g) && Divides(d, n) {
      ReturnFromFactor(d, g, n);
      assert false;
    }
  }

  // ----- One round -----

  /** The positions at the counter values v, v + g, v + 2g, ... */
  function Positions(v: nat, g: nat, n: nat, m: nat): (ps: seq<nat>)
    requires n > 0
    ensures |ps| == m && forall k :: 0 <= k < m ==> ps[k] == IndexFor(v + k * g, n)
  {
    seq(m, k requires 0 <= k < m => IndexFor(v + k * g, n))
  }

  ghost predicate Distinct(ps: seq<nat>) {
    forall i, j :: 0 <= i < j < |ps| ==> ps[i] != ps[j]
  }

  lemma SameAfter(v: nat, g: nat, n: nat, i: nat, j: nat)
    requires n > 0 && v > 0 && i < j
    ensures IndexFor(v + i * g, n) == IndexFor(v + j * g, n) <==> Returns(j - i, g, n)
  {
    assert v + j * g == (v + i * g) + (j - i) * g;
    SamePositionIff(v + i * g, (j - i) * g, n);
  }

  lemma DistinctIff(v: nat, g: nat, n: nat)
    requires n > 0 && v > 0
    ensures Distinct(Positions(v, g, n, n)) <==> Coprime(g, n)
  {
    var ps := Positions(v, g, n, n);
    CoprimeIff(g, n);
    forall i, j | 0 <= i < j < n
      ensures ps[i] == ps[j] <==> Returns(j - i, g, n)
    {
      SameAfter(v, g, n, i, j);
    }
    if j :| 0 < j < n && Returns(j, g, n) {
      assert ps[0] == ps[j];
    }
  }

  function Below(n: nat): (s: set<nat>)
    ensures |s| == n && forall x: nat :: x in s <==> x < n
  {
    if n == 0 then {} else Below(n - 1) + {n - 1}
  }

  /** n different positions below n are all of them. */
  lemma Pigeonhole(ps: seq<nat>, n: nat)
    requires |ps| == n && Distinct(ps) && forall k :: 0 <= k < n ==> ps[k] < n
    ensures forall x: nat :: x < n ==> x in ps
  {
    var s := set x | x in ps;
    Rotation.DistinctSize(ps, s);
    assert s <= Below(n);
    assert |Below(n) - s| == |Below(n)| - |s|;
    assert Below(n) - s == {};
    forall x: nat | x < n
      ensures x in ps
    {
      assert x in Below(n);
      assert x in s;
    }
  }

  /** n such picks go through all n positions once. */
  ghost predicate EachOnce(ps: seq<nat>, n: nat) {
    |ps| == n && Distinct(ps) && forall x: nat :: x < n ==> x in ps
  }

  /** From any counter value: n picks at every g-th value take every position exactly once, if and only
      if `g` and `n` have no common factor. */
  lemma RoundIff(v: nat, g: nat, n: nat)
    requires n > 0 && v > 0
    ensures EachOnce(Positions(v, g, n, n), n) <==> Coprime(g, n)
  {
    DistinctIff(v, g, n);
    if Coprime(g, n) {
      Pigeonhole(Positions(v, g, n, n), n);
    }
  }

  /** With a common factor d all picks stay in one residue class modulo d. */
  lemma OneClass(v: nat, g: nat, n: nat, d: nat, k: nat)
    requires n > 0 && v > 0 && d > 0 && Divides(d, g) && Divides(d, n)
    ensures IndexFor(v + k * g, n) % d == (v - 1) % d
  {
    var a: nat := v - 1 + k * g;
    var q, r, h, m := a / n, a % n, g / d, n / d;
    assert IndexFor(v + k * g, n) == r;
    assert a == n * q + r && g == d * h && n == d * m;
    assert k * (d * h) == d * (k * h) && (d * m) * q == d * (m * q);
    assert r == v - 1 + d * (k * h) - d * (m * q) == v - 1 + d * (k * h - m * q);
    SameClass(r, v - 1, d, k * h - m * q);
  }

  lemma NotNegative(d: nat, q: int, r: int)
    requires r < d && d * q + r >= 0
    ensures q >= 0
  {
    assert d * q == -(d * -q);
    if q < 0 {
      Rotation.Spacing(d, 0, -q);
    }
  }

  lemma SameClass(r: nat, a: nat, d: nat, q: int)
    requires d > 0 && r == a + d * q
    ensures r % d == a % d
  {
    var b := a / d;
    assert a == d * b + a % d;
    assert d * (b + q) == d * b + d * q;
    assert d * (b + q) + a % d == r;
    NotNegative(d, b + q, a % d);
    Rotation.DivisionIsUnique(r, d, b + q, a % d);
  }

  /** Every second counter value goes around a list exactly when its length is odd. */
  lemma CoprimeToTwo(n: nat)
    requires n > 0
    ensures Coprime(2, n) <==> n % 2 == 1
  {
    if n % 2 == 0 {
      assert Divides(2, 2) && Divides(2, n);
    } else {
      forall d: nat | d > 1
        ensures !(Divides(d, 2) && Divides(d, n))
      {
        if Divides(d, 2) {
          assert d <= 2;
        }
      }
    }
  }
}
