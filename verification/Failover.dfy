/** The attempt loop of a request, whatever one attempt does to the pool. */
module Failover {
  import opened Prelude

  /** One turn: nobody could be selected, or member `x` was tried; `s` is the pool afterwards. */
  datatype Turn<S> = NoneLeft(s: S) | Tried(x: nat, s: S, served: bool)

  datatype Outcome = AllDown503 | Cancelled | Served(x: nat)

  datatype Trip<S> = Trip(s: S, tried: seq<nat>, outcome: Outcome)

  function Loop<S>(turn: (S, nat) -> Turn<S>, cancelled: nat -> bool, s: S, tried: seq<nat>, total: nat): Trip<S>
    decreases total - |tried|
  {
    if |tried| >= total then Trip(s, tried, AllDown503)
    else if cancelled(|tried|) then Trip(s, tried, Cancelled)
    else
      match turn(s, |tried|)
      case NoneLeft(s') => Trip(s', tried, AllDown503)
      case Tried(x, s', served) =>
        if served then Trip(s', tried + [x], Served(x)) else Loop(turn, cancelled, s', tried + [x], total)
  }

  lemma {:induction false} TriedGrow<S>(turn: (S, nat) -> Turn<S>, cancelled: nat -> bool, s: S, tried: seq<nat>, total: nat)
    ensures forall x :: x in tried ==> x in Loop(turn, cancelled, s, tried, total).tried
    decreases total - |tried|
  {
    if |tried| < total && !cancelled(|tried|) && turn(s, |tried|).Tried? && !turn(s, |tried|).served {
      TriedGrow(turn, cancelled, turn(s, |tried|).s, tried + [turn(s, |tried|).x], total);
    }
  }

  /** What every turn keeps holds at the end. */
  lemma {:induction false} LoopKeeps<S>(turn: (S, nat) -> Turn<S>, cancelled: nat -> bool, s: S, tried: seq<nat>, total: nat,
                                        inv: (S, seq<nat>) -> bool)
    requires inv(s, tried)
    requires forall p, ts :: inv(p, ts) ==>
               match turn(p, |ts|) case NoneLeft(q) => inv(q, ts) case Tried(x, q, _) => inv(q, ts + [x])
    ensures var r := Loop(turn, cancelled, s, tried, total); inv(r.s, r.tried)
    decreases total - |tried|
  {
    if |tried| < total && !cancelled(|tried|) {
      var t := turn(s, |tried|);
      if t.Tried? && !t.served {
        LoopKeeps(turn, cancelled, t.s, tried + [t.x], total, inv);
      }
    }
  }

  /** How a loop of at most `total` attempts that tried `tried` ended, when `passes` says which attempts are
      served: served by the last member tried if and only if its attempt passes; none before did; cancelled
      if and only if the client left before the next attempt. */
  ghost predicate Told(tried: seq<nat>, outcome: Outcome, total: nat, passes: nat -> bool, cancelled: nat -> bool)
  {
    var n := |tried|;
    && n <= total
    && (forall j :: 0 <= j < n - 1 ==> !passes(j))
    && (outcome.Served? <==> n > 0 && passes(n - 1))
    && (outcome.Served? ==> outcome.x == tried[n - 1])
    && (outcome.Cancelled? <==> (n == 0 || !passes(n - 1)) && n < total && cancelled(n))
  }

  lemma {:induction false} LoopTold<S>(turn: (S, nat) -> Turn<S>, cancelled: nat -> bool, s: S, tried: seq<nat>, total: nat,
                                       passes: nat -> bool)
    requires |tried| <= total && forall j :: 0 <= j < |tried| ==> !passes(j)
    requires forall p, i :: turn(p, i).Tried? ==> turn(p, i).served == passes(i)
    ensures var r := Loop(turn, cancelled, s, tried, total); Told(r.tried, r.outcome, total, passes, cancelled)
    decreases total - |tried|
  {
    if |tried| < total && !cancelled(|tried|) {
      var t := turn(s, |tried|);
      if t.Tried? && !t.served {
        LoopTold(turn, cancelled, t.s, tried + [t.x], total, passes);
      }
    }
  }

  /** A 503 before all attempts were made means that nobody was left. */
  lemma {:induction false} DownMeans<S>(turn: (S, nat) -> Turn<S>, cancelled: nat -> bool, s: S, tried: seq<nat>, total: nat,
                                        noneLeft: S -> bool)
    requires forall p, i :: turn(p, i).NoneLeft? ==> noneLeft(turn(p, i).s)
    ensures var r := Loop(turn, cancelled, s, tried, total);
            r.outcome.AllDown503? && |r.tried| < total ==> noneLeft(r.s)
    decreases total - |tried|
  {
    if |tried| < total && !cancelled(|tried|) {
      var t := turn(s, |tried|);
      if t.Tried? && !t.served {
        DownMeans(turn, cancelled, t.s, tried + [t.x], total, noneLeft);
      }
    }
  }
}
