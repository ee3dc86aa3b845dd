/** Round robin on one counter that several gateway processes increment: combos and the proxy pool. */
module SharedCounter {
  import opened Prelude
  import Rotation

  // ----- One pick -----

  /** Go's `%` on possibly negative operands. */
  function GoMod(a: int, n: int): int
    requires n > 0
  {
    if a >= 0 then a % n else -((-a) % n)
  }

  /** `int((v - 1) % n)` with the sign fix. */
  function IndexFor(v: int, n: nat): (i: nat)
    requires n > 0
    ensures i < n
  {
    var r := GoMod(v - 1, n);
    if r < 0 then r + n else r
  }

  lemma RemainderIsUnique(a: int, n: nat, q: int, r: nat)
    requires n > 0 && a == n * q + r && r < n
    ensures a % n == r
  {
    var p, s := a / n, a % n;
    assert a == n * p + s;
    assert n * (p - q) == r - s;
    assert p == q by {
      if p > q {
        assert n * (p - q) == n + n * (p - q - 1);
        Rotation.Spacing(n, 0, p - q);
      } else if q > p {
        assert n * (p - q) == -(n * (q - p));
        Rotation.Spacing(n, 0, q - p);
      }
    }
  }

  /** Whatever the counter value, also zero or a negative one: position (v - 1) modulo the length. */
  lemma IndexMeans(v: int, n: nat)
    requires n > 0
    ensures IndexFor(v, n) == (v - 1) % n
  {
    var a := v - 1;
    if a < 0 {
      var q, r := (-a) / n, (-a) % n;
      assert -a == n * q + r;
      assert n * (-q) == -(n * q) && n * (-q - 1) == -(n * q) - n;
      if r == 0 {
        RemainderIsUnique(a, n, -q, 0);
      } else {
        RemainderIsUnique(a, n, -q - 1, n - r);
      }
    }
  }

  // ----- The registry of one process -----

  datatype Strategy = Fallback | RoundRobin

  datatype Combo = Combo(strategy: Strategy, models: seq<string>)

  /** The Redis counter as one process sees it: the value an increment returns, or an error. */
  datatype Incr = Value(v: int) | Error

  class ComboRegistry {
    var combos: map<string, Combo>
    // used when the store fails or hands out zero
    var fallbackSeq: map<string, int>

    constructor ()
      ensures combos == map[] && fallbackSeq == map[]
    {
      combos, fallbackSeq := map[], map[];
    }

    function Local(name: string): int
      reads this`fallbackSeq
    {
      if name in fallbackSeq then fallbackSeq[name] else 0
    }

    method FallbackCounter(name: string) returns (v: int)
      modifies this`fallbackSeq
      ensures v == old(Local(name)) + 1 && fallbackSeq == old(fallbackSeq)[name := v]
    {
      v := Local(name) + 1;
      fallbackSeq := fallbackSeq[name := v];
    }

    /** `name` is the part behind the prefix; None when it is not a usable combo. */
    method Resolve(name: string, incr: Incr) returns (model: Option<string>)
      modifies this`fallbackSeq
      ensures model.None? <==> name !in combos || combos[name].models == []
      ensures model.Some? && combos[name].strategy.Fallback? ==> model.value == combos[name].models[0]
      ensures model.Some? && combos[name].strategy.RoundRobin? ==>
                var v := if incr.Value? && incr.v != 0 then incr.v else old(Local(name)) + 1;
                model.value == combos[name].models[IndexFor(v, |combos[name].models|)]
      ensures fallbackSeq ==
              if model.Some? && combos[name].strategy.RoundRobin? && (incr.Error? || incr.v == 0)
              then old(fallbackSeq)[name := old(Local(name)) + 1] else old(fallbackSeq)
    {
      if name !in combos || |combos[name].models| == 0 {
        return None;
      }
      var c := combos[name];
      match c.strategy {
        case RoundRobin =>
          var counter := 0;
          if incr.Value? {
            counter := incr.v;
          }
          if counter == 0 {
            counter := FallbackCounter(name);
          }
          model := Some(c.models[IndexFor(counter, |c.models|)]);
        case Fallback =>
          model := Some(c.models[0]);
      }
    }

    /** The successor of a failed model, by its first occurrence that has one. */
    method NextInFallback(name: string, failed: string) returns (model: Option<string>)
      ensures model.Some? ==> name in combos && combos[name].strategy.Fallback?
                              && exists i :: 0 <= i < |combos[name].models| - 1 && combos[name].models[i] == failed
                                             && combos[name].models[i + 1] == model.value
                                             && failed !in combos[name].models[..i]
      ensures model.None? && name in combos && combos[name].strategy.Fallback? ==>
                forall i :: 0 <= i < |combos[name].models| - 1 ==> combos[name].models[i] != failed
    {
      if name !in combos || !combos[name].strategy.Fallback? || |combos[name].models| == 0 {
        return None;
      }
      var ms := combos[name].models;
      for i := 0 to |ms|
        invariant forall j :: 0 <= j < i && j < |ms| - 1 ==> ms[j] != failed
      {
        if ms[i] == failed && i + 1 < |ms| {
          return Some(ms[i + 1]);
        }
      }
      model := None;
    }
  }

  // ----- Many processes on one counter -----

  /** The shared counter and, per process, the positions it has picked. */
  datatype System = System(counter: int, picked: seq<seq<nat>>)

  /** One process increments the counter atomically and picks. */
  function Pick(s: System, p: nat, n: nat): System
    requires p < |s.picked| && n > 0
  {
    System(s.counter + 1, s.picked[p := s.picked[p] + [IndexFor(s.counter + 1, n)]])
  }

  predicate Known(s: System, schedule: seq<nat>) {
    forall i :: 0 <= i < |schedule| ==> schedule[i] < |s.picked|
  }

  /** Any interleaving of the processes, as the sequence of who picks next. */
  function Run(s: System, schedule: seq<nat>, n: nat): (r: System)
    requires n > 0 && Known(s, schedule)
    ensures |r.picked| == |s.picked|
    decreases |schedule|
  {
    if schedule == [] then s else Run(Pick(s, schedule[0], n), schedule[1..], n)
  }

  function Count(xs: seq<nat>, x: nat): nat
  {
    if xs == [] then 0 else Count(xs[..|xs| - 1], x) + (if xs[|xs| - 1] == x then 1 else 0)
  }

  function Total(picked: seq<seq<nat>>, x: nat): nat
  {
    if picked == [] then 0 else Count(picked[0], x) + Total(picked[1..], x)
  }

  /** How often `x` comes up in the next `m` picks after counter value `c`. */
  function Hits(c: nat, m: nat, n: nat, x: nat): nat
    requires n > 0
  {
    if m == 0 then 0 else Hits(c, m - 1, n, x) + (if IndexFor(c + m, n) == x then 1 else 0)
  }

  lemma {:induction false} TotalPick(picked: seq<seq<nat>>, p: nat, i: nat, x: nat)
    requires p < |picked|
    ensures Total(picked[p := picked[p] + [i]], x) == Total(picked, x) + (if i == x then 1 else 0)
  {
    var after := picked[p := picked[p] + [i]];
    assert (picked[p] + [i])[..|picked[p]|] == picked[p];
    if p == 0 {
      assert after[1..] == picked[1..];
    } else {
      assert after[1..] == picked[1..][p - 1 := picked[1..][p - 1] + [i]];
      TotalPick(picked[1..], p - 1, i, x);
    }
  }

  lemma {:induction false} HitsShift(c: nat, m: nat, n: nat, x: nat)
    requires n > 0 && m > 0
    ensures Hits(c, m, n, x) == (if IndexFor(c + 1, n) == x then 1 else 0) + Hits(c + 1, m - 1, n, x)
  {
    if m > 1 {
      HitsShift(c, m - 1, n, x);
      assert c + m == (c + 1) + (m - 1);
    }
  }

  /** The interleaving does not matter: totals depend on the number of picks only. */
  lemma {:induction false} InterleavingIrrelevant(s: System, schedule: seq<nat>, n: nat, x: nat)
    requires n > 0 && Known(s, schedule) && s.counter >= 0
    ensures Total(Run(s, schedule, n).picked, x) == Total(s.picked, x) + Hits(s.counter, |schedule|, n, x)
    ensures Run(s, schedule, n).counter == s.counter + |schedule|
    decreases |schedule|
  {
    if schedule != [] {
      var s1 := Pick(s, schedule[0], n);
      TotalPick(s.picked, schedule[0], IndexFor(s.counter + 1, n), x);
      InterleavingIrrelevant(s1, schedule[1..], n, x);
      HitsShift(s.counter, |schedule|, n, x);
    }
  }

  // ----- Counting hits -----

  /** How many picks after counter value `c` come before the first hit of `x`. */
  function Distance(c: nat, n: nat, x: nat): nat
    requires n > 0 && x < n
  {
    var r := c % n;
    if x >= r then x - r else x + n - r
  }

  /** Each step either hits `x` or comes one closer to it. */
  lemma DistanceStep(c: nat, n: nat, x: nat)
    requires n > 0 && x < n
    ensures Distance(c, n, x) < n
    ensures Distance(c, n, x) == 0 <==> IndexFor(c + 1, n) == x
    ensures Distance(c + 1, n, x) == if Distance(c, n, x) == 0 then n - 1 else Distance(c, n, x) - 1
  {
    Rotation.SuccMod(c, n);
  }

  /** Hits counted in rounds: a full round of n picks hits every position once. */
  lemma {:induction false} HitsByDistance(c: nat, m: nat, n: nat, x: nat)
    requires n > 0 && x < n
    ensures m <= Distance(c, n, x) ==> Hits(c, m, n, x) == 0
    ensures Distance(c, n, x) < m <= n ==> Hits(c, m, n, x) == 1
    ensures m >= n ==> Hits(c, m, n, x) == 1 + Hits(c + n, m - n, n, x)
    decreases m
  {
    DistanceStep(c, n, x);
    if m > 0 {
      HitsShift(c, m, n, x);
      HitsByDistance(c + 1, m - 1, n, x);
      if m > n {
        var d := Distance(c, n, x);
        HitsByDistance(c, m - 1, n, x);
        assert Hits(c, m, n, x) == Hits(c, m - 1, n, x) + (if IndexFor(c + m, n) == x then 1 else 0);
        assert (c + n) + (m - n) == c + m;
      }
    }
  }

  /** Two positions never differ by more than one. */
  lemma {:induction false} HitsBalanced(c: nat, m: nat, n: nat, x: nat, y: nat)
    requires n > 0 && x < n && y < n
    ensures -1 <= Hits(c, m, n, x) - Hits(c, m, n, y) <= 1
    decreases m
  {
    HitsByDistance(c, m, n, x);
    HitsByDistance(c, m, n, y);
    DistanceStep(c, n, x);
    DistanceStep(c, n, y);
    if m > n {
      HitsBalanced(c + n, m - n, n, x, y);
    }
  }

  /** Shared-counter rotation: for any number of processes and any interleaving over one unchanged list
      of n positions, the numbers of picks of two positions differ by at most one. */
  lemma RotationIsFair(s: System, schedule: seq<nat>, n: nat, x: nat, y: nat)
    requires n > 0 && Known(s, schedule) && s.counter >= 0 && x < n && y < n
    requires forall z :: Total(s.picked, z) == 0
    ensures var r := Run(s, schedule, n).picked; -1 <= Total(r, x) - Total(r, y) <= 1
  {
    InterleavingIrrelevant(s, schedule, n, x);
    InterleavingIrrelevant(s, schedule, n, y);
    HitsBalanced(s.counter, |schedule|, n, x, y);
  }

  /** Two counter values give the same position exactly when n divides their distance. */
  lemma SamePositionIff(v: nat, g: nat, n: nat)
    requires n > 0 && v > 0
    ensures IndexFor(v + g, n) == IndexFor(v, n) <==> g % n == 0
  {
    var a: nat, b: nat := v - 1, v - 1 + g;
    assert IndexFor(v, n) == a % n && IndexFor(v + g, n) == b % n;
    assert b == n * (b / n) + b % n && a == n * (a / n) + a % n && g == n * (g / n) + g % n;
    if b % n == a % n {
      var q := b / n - a / n;
      assert g == n * q;
      assert n * q >= 0 ==> q >= 0;
      Rotation.DivisionIsUnique(g, n, q, 0);
    }
    if g % n == 0 {
      var q := a / n + g / n;
      assert n * q == n * (a / n) + n * (g / n);
      Rotation.DivisionIsUnique(b, n, q, a % n);
    }
  }
}
