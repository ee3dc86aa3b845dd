/** The cyclic scan both pool managers use, on the eligibility flags of the pool alone. */
module Rotation {
  import opened Prelude

  // ----- Positions on the ring -----

  function Next(x: nat, n: nat): (y: nat)
    requires x < n
    ensures y < n
  {
    if x + 1 == n then 0 else x + 1
  }

  /** The position `o` steps after `start` on a ring of `n` positions. */
  function Pos(start: nat, o: nat, n: nat): (x: nat)
    requires n > 0
    ensures x < n
    decreases o
  {
    if o == 0 then start % n else Next(Pos(start, o - 1, n), n)
  }

  lemma DivisionIsUnique(x: nat, n: nat, q: nat, r: nat)
    requires n > 0 && x == n * q + r && r < n
    ensures x % n == r
  {
    var p := x / n;
    assert x == n * p + x % n;
    if q < p {
      Spacing(n, q, p);
    } else if p < q {
      Spacing(n, p, q);
    }
  }

  lemma Spacing(n: nat, a: nat, b: nat)
    requires a < b
    ensures n * a + n <= n * b
  {
    assert n * b == n * a + n * (b - a);
    assert n * (b - a) == n + n * (b - a - 1);
  }

  lemma SuccMod(a: nat, n: nat)
    requires n > 0
    ensures (a + 1) % n == Next(a % n, n)
  {
    var q, r := a / n, a % n;
    assert a == n * q + r;
    if r + 1 == n {
      assert a + 1 == n * (q + 1) + 0;
      DivisionIsUnique(a + 1, n, q + 1, 0);
    } else {
      DivisionIsUnique(a + 1, n, q, r + 1);
    }
  }

  /** The program computes positions with a remainder. */
  lemma {:induction false} PosIsMod(start: nat, o: nat, n: nat)
    requires n > 0
    ensures Pos(start, o, n) == (start + o) % n
  {
    if o > 0 {
      PosIsMod(start, o - 1, n);
      SuccMod(start + o - 1, n);
    }
  }

  lemma {:induction false} PosCompose(start: nat, a: nat, b: nat, n: nat)
    requires n > 0
    ensures Pos(Pos(start, a, n), b, n) == Pos(start, a + b, n)
  {
    if b == 0 {
      var x := Pos(start, a, n);
      DivisionIsUnique(x, n, 0, x);
    } else {
      PosCompose(start, a, b - 1, n);
    }
  }

  lemma {:induction false} PosFormula(start: nat, o: nat, n: nat)
    requires n > 0 && o < n
    ensures Pos(start, o, n) == if start % n + o < n then start % n + o else start % n + o - n
  {
    if o > 0 {
      PosFormula(start, o - 1, n);
    }
  }

  /** Offsets below n reach different positions. */
  lemma PosDistinct(start: nat, i: nat, j: nat, n: nat)
    requires i < j < n
    ensures Pos(start, i, n) != Pos(start, j, n)
  {
    PosFormula(start, i, n);
    PosFormula(start, j, n);
  }

  /** The offset at which a scan from `start` reaches position `x`. */
  function OffsetOf(start: nat, x: nat, n: nat): nat
    requires x < n
  {
    var s := start % n;
    if x >= s then x - s else x + n - s
  }

  lemma Reaches(start: nat, x: nat, n: nat)
    requires x < n
    ensures OffsetOf(start, x, n) < n && Pos(start, OffsetOf(start, x, n), n) == x
  {
    PosFormula(start, OffsetOf(start, x, n), n);
  }

  // ----- One scan -----

  predicate OkAt(ok: seq<bool>, cursor: nat, o: nat)
    requires |ok| > 0
  {
    ok[Pos(cursor, o, |ok|)]
  }

  /** The first eligible offset at or after `i` seen from `cursor`; the pool size if there is none. */
  function Gap(ok: seq<bool>, cursor: nat, i: nat): (g: nat)
    requires i <= |ok|
    ensures i <= g <= |ok|
    ensures g < |ok| ==> OkAt(ok, cursor, g)
    ensures forall j :: i <= j < g ==> !OkAt(ok, cursor, j)
    decreases |ok| - i
  {
    if i == |ok| || OkAt(ok, cursor, i) then i else Gap(ok, cursor, i + 1)
  }

  function Pick(ok: seq<bool>, cursor: nat): (r: Option<nat>)
    ensures r.Some? ==> r.value < |ok| && ok[r.value]
  {
    var g := Gap(ok, cursor, 0);
    if g < |ok| then Some(Pos(cursor, g, |ok|)) else None
  }

  /** A pick fails exactly when nothing is eligible. */
  lemma PickFailsIffNone(ok: seq<bool>, cursor: nat)
    ensures Pick(ok, cursor).None? <==> forall x :: 0 <= x < |ok| ==> !ok[x]
  {
    if Pick(ok, cursor).None? {
      forall x | 0 <= x < |ok|
        ensures !ok[x]
      {
        Reaches(cursor, x, |ok|);
        assert !OkAt(ok, cursor, OffsetOf(cursor, x, |ok|));
      }
    }
  }

  /** A pick is the first eligible position from the cursor on, going around the ring. */
  lemma PickIsFirst(ok: seq<bool>, cursor: nat)
    ensures var p := Pick(ok, cursor);
            p.Some? ==> ok[p.value] && exists g: nat :: FirstAt(ok, cursor, g) && p.value == (cursor + g) % |ok|
    ensures forall x: nat, n: nat :: x < n ==> Next(x, n) == (x + 1) % n
  {
    var p := Pick(ok, cursor);
    if p.Some? {
      var g := Gap(ok, cursor, 0);
      forall j: nat | j <= g
        ensures EligibleAfter(ok, cursor, j) == OkAt(ok, cursor, j)
      {
        PosIsMod(cursor, j, |ok|);
      }
      PosIsMod(cursor, g, |ok|);
      assert FirstAt(ok, cursor, g);
    }
    forall x: nat, n: nat | x < n
      ensures Next(x, n) == (x + 1) % n
    {
      SuccMod(x, n);
      DivisionIsUnique(x, n, 0, x);
    }
  }

  predicate EligibleAfter(ok: seq<bool>, cursor: nat, steps: nat)
    requires |ok| > 0
  {
    ok[(cursor + steps) % |ok|]
  }

  /** `g` steps behind the cursor stands the first eligible position. */
  ghost predicate FirstAt(ok: seq<bool>, cursor: nat, g: nat) {
    g < |ok| && EligibleAfter(ok, cursor, g) && forall j: nat :: j < g ==> !EligibleAfter(ok, cursor, j)
  }

  // ----- Fairness -----

  /** The positions returned by `m` consecutive picks while the flags stay as they are. */
  function Picks(ok: seq<bool>, cursor: nat, m: nat): seq<nat>
    decreases m
  {
    if m == 0 then []
    else
      var p := Pick(ok, cursor);
      if p.None? then [] else [p.value] + Picks(ok, Next(p.value, |ok|), m - 1)
  }

  /** The eligible positions in cyclic order, from offset `i` of a scan starting at `start`. */
  function Cycle(ok: seq<bool>, start: nat, i: nat): seq<nat>
    requires i <= |ok|
    decreases |ok| - i
  {
    if i == |ok| then []
    else (if OkAt(ok, start, i) then [Pos(start, i, |ok|)] else []) + Cycle(ok, start, i + 1)
  }

  function Eligible(ok: seq<bool>): set<nat> {
    set x | 0 <= x < |ok| && ok[x]
  }

  lemma NoneEligible(ok: seq<bool>)
    ensures Eligible(ok) == {} <==> forall x :: 0 <= x < |ok| ==> !ok[x]
  {
    if forall x :: 0 <= x < |ok| ==> !ok[x] {
      assert Eligible(ok) == {};
    }
    forall x | 0 <= x < |ok| && ok[x]
      ensures x in Eligible(ok)
    {
    }
  }

  /** Skipping ineligible positions leaves the cycle as it is. */
  lemma {:induction false} CycleSkips(ok: seq<bool>, start: nat, i: nat)
    requires i <= |ok|
    ensures Cycle(ok, start, i) == Cycle(ok, start, Gap(ok, start, i))
    decreases |ok| - i
  {
    if i < |ok| && !OkAt(ok, start, i) {
      CycleSkips(ok, start, i + 1);
      assert Cycle(ok, start, i) == [] + Cycle(ok, start, i + 1);
    }
  }

  /** A scan that starts further along the ring finds the same position. */
  lemma {:induction false} GapShift(ok: seq<bool>, start: nat, i: nat, j: nat)
    requires |ok| > 0 && i + j <= |ok| && Gap(ok, start, i + j) < |ok|
    ensures Gap(ok, Pos(start, i, |ok|), j) == Gap(ok, start, i + j) - i
    decreases |ok| - (i + j)
  {
    PosCompose(start, i, j, |ok|);
    if !OkAt(ok, start, i + j) {
      GapShift(ok, start, i, j + 1);
    }
  }

  /** Consecutive picks walk the cycle. */
  lemma {:induction false} PicksFollowCycle(ok: seq<bool>, start: nat, i: nat, m: nat)
    requires |ok| > 0 && i <= |ok| && m <= |Cycle(ok, start, i)|
    ensures Picks(ok, Pos(start, i, |ok|), m) == Cycle(ok, start, i)[..m]
    decreases m
  {
    if m > 0 {
      var n := |ok|;
      var g := Gap(ok, start, i);
      CycleSkips(ok, start, i);
      GapShift(ok, start, i, 0);
      PosCompose(start, i, g - i, n);
      var x := Pos(start, g, n);
      assert Pick(ok, Pos(start, i, n)) == Some(x);
      assert Next(x, n) == Pos(start, g + 1, n);
      assert Cycle(ok, start, g) == [x] + Cycle(ok, start, g + 1);
      PicksFollowCycle(ok, start, g + 1, m - 1);
    }
  }

  ghost predicate InCycle(ok: seq<bool>, start: nat, i: nat, x: nat)
    requires |ok| > 0
  {
    exists o :: i <= o < |ok| && x == Pos(start, o, |ok|) && OkAt(ok, start, o)
  }

  lemma {:induction false} CycleElements(ok: seq<bool>, start: nat, i: nat)
    requires |ok| > 0 && i <= |ok|
    ensures forall x :: x in Cycle(ok, start, i) <==> InCycle(ok, start, i, x)
    ensures forall p, q :: 0 <= p < q < |Cycle(ok, start, i)| ==> Cycle(ok, start, i)[p] != Cycle(ok, start, i)[q]
    decreases |ok| - i
  {
    if i < |ok| {
      CycleElements(ok, start, i + 1);
      var x := Pos(start, i, |ok|);
      if InCycle(ok, start, i + 1, x) {
        var o :| i + 1 <= o < |ok| && x == Pos(start, o, |ok|) && OkAt(ok, start, o);
        PosDistinct(start, i, o, |ok|);
        assert false;
      }
      forall y
        ensures InCycle(ok, start, i, y) <==> InCycle(ok, start, i + 1, y) || (OkAt(ok, start, i) && y == x)
      {
        if InCycle(ok, start, i + 1, y) {
          var o :| i + 1 <= o < |ok| && y == Pos(start, o, |ok|) && OkAt(ok, start, o);
          assert i <= o;
        }
        if OkAt(ok, start, i) && y == x {
          assert i <= i;
        }
      }
    }
  }

  lemma {:induction false} DistinctSize(s: seq<nat>, t: set<nat>)
    requires forall p, q :: 0 <= p < q < |s| ==> s[p] != s[q]
    requires forall x :: x in t <==> x in s
    ensures |s| == |t|
  {
    if s == [] {
      assert t == {};
    } else {
      var last := s[|s| - 1];
      var front := s[..|s| - 1];
      assert s == front + [last];
      DistinctSize(front, t - {last});
    }
  }

  /** A cursor left beyond the end of a shrunken pool acts like its remainder. */
  lemma StaleCursor(ok: seq<bool>, cursor: nat, m: nat)
    requires |ok| > 0
    ensures Pick(ok, cursor) == Pick(ok, Pos(cursor, 0, |ok|))
    ensures Picks(ok, cursor, m) == Picks(ok, Pos(cursor, 0, |ok|), m)
  {
    SameGap(ok, cursor, 0);
    var g := Gap(ok, cursor, 0);
    PosCompose(cursor, 0, g, |ok|);
  }

  lemma {:induction false} SameGap(ok: seq<bool>, cursor: nat, i: nat)
    requires |ok| > 0 && i <= |ok|
    ensures Gap(ok, cursor, i) == Gap(ok, Pos(cursor, 0, |ok|), i)
    decreases |ok| - i
  {
    if i < |ok| {
      PosCompose(cursor, 0, i, |ok|);
      SameGap(ok, cursor, i + 1);
    }
  }

  /** Exact cyclic fairness with gaps: from any cursor, if k positions are eligible, k consecutive
      picks return each of them exactly once. */
  lemma Fair(ok: seq<bool>, cursor: nat)
    ensures var ps := Picks(ok, cursor, |Eligible(ok)|);
            && |ps| == |Eligible(ok)|
            && (forall p, q :: 0 <= p < q < |ps| ==> ps[p] != ps[q])
            && (forall x :: x in ps <==> x in Eligible(ok))
  {
    var cycle := Cycle(ok, cursor, 0);
    if |ok| == 0 {
      assert Eligible(ok) == {};
    } else {
      CycleElements(ok, cursor, 0);
      forall x
        ensures x in Eligible(ok) <==> x in cycle
      {
        if x in Eligible(ok) {
          Reaches(cursor, x, |ok|);
          assert OkAt(ok, cursor, OffsetOf(cursor, x, |ok|));
          assert InCycle(ok, cursor, 0, x);
        }
        if InCycle(ok, cursor, 0, x) {
          assert x in Eligible(ok);
        }
      }
      DistinctSize(cycle, Eligible(ok));
      PicksFollowCycle(ok, cursor, 0, |cycle|);
      StaleCursor(ok, cursor, |cycle|);
      assert cycle[..|cycle|] == cycle;
    }
  }

  // ----- Coverage during failover -----

  /** Every position in `need` within the first `d` offsets from `start` was tried. */
  ghost predicate Covered(n: nat, start: nat, d: nat, need: set<nat>, tried: seq<nat>)
    requires n > 0
  {
    forall o :: 0 <= o < n && o < d && Pos(start, o, n) in need ==> Pos(start, o, n) in tried
  }

  /** How far behind offset `d` the scan moves when it picks with the cursor at that offset. */
  function Advance(ok: seq<bool>, start: nat, d: nat): nat
    requires |ok| > 0
  {
    d + Gap(ok, Pos(start, d, |ok|), 0) + 1
  }

  /** A pick extends the covered stretch past every position it skipped. */
  lemma PickCovers(ok: seq<bool>, start: nat, d: nat, need: set<nat>, tried: seq<nat>)
    requires |ok| > 0 && Covered(|ok|, start, d, need, tried)
    requires forall x :: x in need && x !in tried ==> x < |ok| && ok[x]
    requires Pick(ok, Pos(start, d, |ok|)).Some?
    ensures var x := Pick(ok, Pos(start, d, |ok|)).value; var d' := Advance(ok, start, d);
            && Next(x, |ok|) == Pos(start, d', |ok|)
            && Covered(|ok|, start, d', need, tried + [x])
  {
    var n := |ok|;
    var c := Pos(start, d, n);
    var g := Gap(ok, c, 0);
    var x := Pos(c, g, n);
    PosCompose(start, d, g, n);
    forall o | 0 <= o < n && o < d + g + 1 && Pos(start, o, n) in need
      ensures Pos(start, o, n) in tried + [x]
    {
      if d <= o < d + g {
        PosCompose(start, d, o - d, n);
        assert !OkAt(ok, c, o - d);
      }
    }
  }

  /** Once the covered stretch spans the pool, everything needed was tried. */
  lemma CoveredAll(n: nat, start: nat, d: nat, need: set<nat>, tried: seq<nat>)
    requires n > 0 && Covered(n, start, d, need, tried) && d >= n
    requires forall x :: x in need ==> x < n
    ensures forall x :: x in need ==> x in tried
  {
    forall x | x in need
      ensures x in tried
    {
      Reaches(start, x, n);
      assert Pos(start, OffsetOf(start, x, n), n) in need;
    }
  }
}
