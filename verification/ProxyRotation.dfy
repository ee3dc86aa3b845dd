/** How fairly the one shared counter rotates the proxies of a scope. */
module ProxyRotation {
  import opened Prelude
  import opened ProxyPool
  import SharedCounter
  import Strides

  // ----- Candidates -----

  lemma {:induction false} RouteAt(es: seq<Entry>, i: nat)
    requires i < |es|
    ensures Routes(es)[i] == es[i].(failCount := 0)
  {
    if i < |es| - 1 {
      RouteAt(Init(es), i);
    }
  }

  /** An entry that is not in `es` keeps its distance from every part of `es`. */
  lemma NewIdOutside(es: seq<Entry>, part: seq<Entry>, e: Entry)
    requires forall x :: x in part ==> x in es
    requires forall i :: 0 <= i < |es| ==> es[i].id != e.id
    ensures DistinctIds(part) ==> DistinctIds(part + [e])
  {
    forall j | 0 <= j < |part|
      ensures part[j].id != e.id
    {
      assert part[j] in es;
    }
  }

  lemma {:induction false} EnabledDistinct(es: seq<Entry>)
    requires DistinctIds(es)
    ensures DistinctIds(EnabledOf(es))
  {
    if es != [] {
      EnabledDistinct(Init(es));
      forall x | x in EnabledOf(Init(es))
        ensures x in Init(es)
      {
        EnabledFrom(Init(es), x);
      }
      NewIdOutside(Init(es), EnabledOf(Init(es)), Last(es));
    }
  }

  lemma {:induction false} ScopedDistinct(es: seq<Entry>, u: string)
    requires DistinctIds(es)
    ensures DistinctIds(Scoped(es, u))
  {
    if es != [] {
      ScopedDistinct(Init(es), u);
      ScopedFrom(Init(es), u);
      NewIdOutside(Init(es), Scoped(Init(es), u), Last(es));
    }
  }

  /** The candidates of a scope are distinct entries after every run. */
  lemma CandidatesDistinct(rules: Rules, ops: seq<Op>, u: string)
    requires FreshIds(rules, ops)
    ensures DistinctIds(Scoped(Run(rules, ops).enabled, u))
  {
    var p := Run(rules, ops);
    var all := EnabledOf(p.entries);
    CountersAreStreaks(rules, ops);
    RunCoherent(rules, ops);
    EnabledDistinct(p.entries);
    forall i, j | 0 <= i < j < |p.enabled|
      ensures p.enabled[i].id != p.enabled[j].id
    {
      RouteAt(p.enabled, i);
      RouteAt(p.enabled, j);
      RouteAt(all, i);
      RouteAt(all, j);
    }
    ScopedDistinct(p.enabled, u);
  }

  // ----- One scope -----

  /** How often entry `e` is picked for `u` at the `m` counter values after `c`. */
  function PickCount(p: Pool, u: string, c: nat, m: nat, e: Entry): nat
  {
    if m == 0 then 0 else PickCount(p, u, c, m - 1, e) + (if Picked(p, u, c + m) == Some(e) then 1 else 0)
  }

  lemma {:induction false} CountsAreHits(p: Pool, u: string, c: nat, m: nat, x: nat)
    requires var es := Scoped(p.enabled, u); x < |es| && DistinctIds(es)
    ensures var es := Scoped(p.enabled, u); PickCount(p, u, c, m, es[x]) == SharedCounter.Hits(c, m, |es|, x)
  {
    if m > 0 {
      CountsAreHits(p, u, c, m - 1, x);
      var es := Scoped(p.enabled, u);
      var i := SharedCounter.IndexFor(c + m, |es|);
      assert es[i] == es[x] <==> i == x;
    }
  }

  /** While all callers ask for one scope, the picks of its entries differ by at most one. */
  lemma OneScopeIsFair(rules: Rules, ops: seq<Op>, u: string, c: nat, m: nat, x: nat, y: nat)
    requires FreshIds(rules, ops)
    requires var es := Scoped(Run(rules, ops).enabled, u); x < |es| && y < |es|
    ensures var p := Run(rules, ops); var es := Scoped(p.enabled, u);
            -1 <= PickCount(p, u, c, m, es[x]) - PickCount(p, u, c, m, es[y]) <= 1
  {
    var p := Run(rules, ops);
    CandidatesDistinct(rules, ops, u);
    CountsAreHits(p, u, c, m, x);
    CountsAreHits(p, u, c, m, y);
    SharedCounter.HitsBalanced(c, m, |Scoped(p.enabled, u)|, x, y);
  }

  // ----- Several scopes on the one counter -----

  /** Two requests of a scope that are `g` increments apart get the same entry exactly when the number of
      candidates divides `g`. */
  lemma ScopeRepeatsIff(rules: Rules, ops: seq<Op>, u: string, v: nat, g: nat)
    requires FreshIds(rules, ops) && v > 0 && Scoped(Run(rules, ops).enabled, u) != []
    ensures var p := Run(rules, ops);
            Picked(p, u, v + g) == Picked(p, u, v) <==> g % |Scoped(p.enabled, u)| == 0
  {
    var es := Scoped(Run(rules, ops).enabled, u);
    CandidatesDistinct(rules, ops, u);
    SharedCounter.SamePositionIff(v, g, |es|);
  }

  /** The answers to `m` requests of a scope at the counter values v, v + g, v + 2g, ... */
  function StridePicks(p: Pool, u: string, v: nat, g: nat, m: nat): (r: seq<Option<Entry>>)
    ensures |r| == m && forall k :: 0 <= k < m ==> r[k] == Picked(p, u, v + k * g)
  {
    seq(m, k requires 0 <= k < m => Picked(p, u, v + k * g))
  }

  /** Every candidate is the answer exactly once. */
  ghost predicate FairRound(picks: seq<Option<Entry>>, es: seq<Entry>)
  {
    && |picks| == |es|
    && (forall i, j :: 0 <= i < j < |picks| ==> picks[i] != picks[j])
    && (forall e :: e in es <==> Some(e) in picks)
  }

  lemma FairRoundIff(es: seq<Entry>, ps: seq<nat>, picks: seq<Option<Entry>>)
    requires DistinctIds(es) && |ps| == |es| == |picks|
    requires forall k :: 0 <= k < |ps| ==> ps[k] < |es| && picks[k] == Some(es[ps[k]])
    ensures FairRound(picks, es) <==> Strides.EachOnce(ps, |es|)
  {
    forall i, j | 0 <= i < j < |ps|
      ensures picks[i] == picks[j] <==> ps[i] == ps[j]
    {
    }
    if Strides.EachOnce(ps, |es|) {
      forall e
        ensures e in es <==> Some(e) in picks
      {
        if e in es {
          var x: nat :| x < |es| && es[x] == e;
          assert x in ps;
          var k :| 0 <= k < |ps| && ps[k] == x;
          assert picks[k] == Some(e);
        }
      }
    } else if FairRound(picks, es) {
      assert Strides.Distinct(ps);
      Strides.Pigeonhole(ps, |es|);
      assert false;
    }
  }

  /** Rotation within a scope: n requests of a scope of n candidates, each `g` increments after the one
      before, get every candidate exactly once, if and only if `g` and `n` have no common factor. */
  lemma ScopeIsFairIff(rules: Rules, ops: seq<Op>, u: string, v: nat, g: nat)
    requires FreshIds(rules, ops) && v > 0
    ensures var p := Run(rules, ops); var es := Scoped(p.enabled, u);
            es != [] ==> (FairRound(StridePicks(p, u, v, g, |es|), es) <==> Strides.Coprime(g, |es|))
  {
    var p := Run(rules, ops);
    var es := Scoped(p.enabled, u);
    if es != [] {
      CandidatesDistinct(rules, ops, u);
      Strides.RoundIff(v, g, |es|);
      FairRoundIff(es, Strides.Positions(v, g, |es|, |es|), StridePicks(p, u, v, g, |es|));
    }
  }

  // ----- Runs of requests -----

  /** The answers to a run of requests on the shared counter; a scope without candidates leaves it alone. */
  function Serve(p: Pool, c: nat, us: seq<string>): (r: seq<Option<Entry>>)
    ensures |r| == |us|
    decreases |us|
  {
    if us == [] then []
    else if Scoped(p.enabled, us[0]) == [] then [None] + Serve(p, c, us[1..])
    else [Picked(p, us[0], c + 1)] + Serve(p, c + 1, us[1..])
  }

  /** Two scopes taking turns, `m` requests each. */
  function Alternating(u: string, u': string, m: nat): (us: seq<string>)
    ensures |us| == 2 * m
  {
    if m == 0 then [] else [u, u'] + Alternating(u, u', m - 1)
  }

  lemma ServeTurn(p: Pool, c: nat, u: string, u': string, rest: seq<string>)
    requires Scoped(p.enabled, u) != [] && Scoped(p.enabled, u') != []
    ensures Serve(p, c, [u, u'] + rest) == [Picked(p, u, c + 1), Picked(p, u', c + 2)] + Serve(p, c + 2, rest)
  {
    var us := [u, u'] + rest;
    assert us[1..] == [u'] + rest;
    assert us[1..][1..] == rest;
    Associative([Picked(p, u, c + 1)], [Picked(p, u', c + 2)], Serve(p, c + 2, rest));
  }

  lemma {:induction false} AlternatingAnswers(p: Pool, c: nat, u: string, u': string, m: nat, k: nat)
    requires k < m && Scoped(p.enabled, u) != [] && Scoped(p.enabled, u') != []
    ensures Serve(p, c, Alternating(u, u', m))[2 * k] == Picked(p, u, c + 1 + k * 2)
    decreases m
  {
    var rest := Alternating(u, u', m - 1);
    ServeTurn(p, c, u, u', rest);
    if k > 0 {
      AlternatingAnswers(p, c + 2, u, u', m - 1, k - 1);
      assert Serve(p, c, Alternating(u, u', m))[2 * k] == Serve(p, c + 2, rest)[2 * (k - 1)];
    }
  }

  /** The answers to the first of two alternating scopes. */
  function FirstAnswers(p: Pool, c: nat, u: string, u': string, m: nat): (r: seq<Option<Entry>>)
    ensures |r| == m
    ensures forall k :: 0 <= k < m ==> r[k] == Serve(p, c, Alternating(u, u', m))[2 * k]
  {
    seq(m, k requires 0 <= k < m => Serve(p, c, Alternating(u, u', m))[2 * k])
  }

  lemma FirstAnswersStride(p: Pool, c: nat, u: string, u': string, m: nat)
    requires Scoped(p.enabled, u) != [] && Scoped(p.enabled, u') != []
    ensures FirstAnswers(p, c, u, u', m) == StridePicks(p, u, c + 1, 2, m)
  {
    forall k | 0 <= k < m
      ensures FirstAnswers(p, c, u, u', m)[k] == StridePicks(p, u, c + 1, 2, m)[k]
    {
      AlternatingAnswers(p, c, u, u', m, k);
    }
  }

  /** While two scopes take turns, a scope of n candidates gets each of them once in n requests if and
      only if n is odd. */
  lemma AlternatingIsFairIff(rules: Rules, ops: seq<Op>, c: nat, u: string, u': string)
    requires FreshIds(rules, ops)
    requires Scoped(Run(rules, ops).enabled, u) != [] && Scoped(Run(rules, ops).enabled, u') != []
    ensures var p := Run(rules, ops); var es := Scoped(p.enabled, u);
            FairRound(FirstAnswers(p, c, u, u', |es|), es) <==> |es| % 2 == 1
  {
    var p := Run(rules, ops);
    var n := |Scoped(p.enabled, u)|;
    FirstAnswersStride(p, c, u, u', n);
    ScopeIsFairIff(rules, ops, u, c + 1, 2);
    Strides.CoprimeToTwo(n);
  }

  /** With an even number of candidates, however long the scopes take turns, only candidates at
      positions of one parity are ever used: half of them starve. */
  lemma AlternatingScopesStarve(rules: Rules, ops: seq<Op>, c: nat, u: string, u': string, m: nat, k: nat, x: nat)
    requires FreshIds(rules, ops) && k < m && Scoped(Run(rules, ops).enabled, u') != []
    requires var es := Scoped(Run(rules, ops).enabled, u); x < |es| && |es| % 2 == 0 && x % 2 != c % 2
    ensures var p := Run(rules, ops);
            Serve(p, c, Alternating(u, u', m))[2 * k] != Some(Scoped(p.enabled, u)[x])
  {
    var p := Run(rules, ops);
    AlternatingAnswers(p, c, u, u', m, k);
    CandidatesDistinct(rules, ops, u);
    OtherParity(Scoped(p.enabled, u), c, k, x);
  }

  lemma OtherParity(es: seq<Entry>, c: nat, k: nat, x: nat)
    requires DistinctIds(es) && x < |es| && |es| % 2 == 0 && x % 2 != c % 2
    ensures es[SharedCounter.IndexFor(c + 1 + k * 2, |es|)] != es[x]
  {
    assert Strides.Divides(2, 2) && Strides.Divides(2, |es|);
    Strides.OneClass(c + 1, 2, |es|, 2, k);
  }
}
