/** How a Grok request ends and what it does to the accounts, read off the upstream's answers. */
module GrokRequests {
  import opened Prelude
  import opened Lifecycle
  import opened Grok
  import opened Failover

  // ----- Answers -----

  /** The answer that counts: the first one, or after a 401 the one to the refreshed token, if there is one. */
  function Counting(w: World, i: nat): Answer
  {
    if w.first(i).Reply? && w.first(i).status == 401
    then if w.refresh(i).Refreshed? then w.second(i) else NetworkError
    else w.first(i)
  }

  /** Anything below 500 but 401, 402 and 403 is served. */
  predicate Passes(w: World, i: nat)
  {
    var a := Counting(w, i);
    a.Reply? && a.status < 500 && a.status != 401 && a.status != 402 && a.status != 403
  }

  /** The account is bad for good: its refresh token is revoked, a new token is refused as well, payment is
      required, or a 403 carries one of the permanent markers. */
  predicate Kills(w: World, i: nat)
  {
    || (w.first(i).Reply? && w.first(i).status == 401 && w.refresh(i).InvalidGrant?)
    || (var a := Counting(w, i); a.Reply? && (a.status == 401 || a.status == 402 || (a.status == 403 && a.permanentMarker)))
  }

  /** The account needs a pause. */
  predicate Cools(w: World, i: nat)
  {
    var a := Counting(w, i);
    a.Reply? && a.status == 403 && !a.permanentMarker
  }

  function FlagAfter1(flag: Flag, w: World, i: nat): Flag
  {
    if Kills(w, i) then Flag(true, Zero) else if Cools(w, i) then Flag(true, At(w.clock(i))) else flag
  }

  /** One attempt: the flag follows the answers; the expiry changes exactly on a refresh after a 401. */
  lemma AttemptMeans(a: Account, w: World, i: nat)
    ensures var r := Attempted(a, w, i);
            && r.email == a.email && r.flag == FlagAfter1(a.flag, w, i)
            && r.expiresAt == if w.first(i).Reply? && w.first(i).status == 401 && w.refresh(i).Refreshed?
                              then w.refresh(i).expiresAt else a.expiresAt
    ensures React(w.first(i), w.refresh(i), w.second(i)).Serve? <==> Passes(w, i)
  {
  }

  // ----- Outcomes -----

  function PassesAt(w: World): nat -> bool {
    (i: nat) => Passes(w, i)
  }

  function NobodyLeft(): Pool -> bool {
    (p: Pool) => forall x :: 0 <= x < |p.accts| ==> p.accts[x].flag.disabled
  }

  lemma TurnPasses(p: Pool, i: nat, w: World)
    ensures OneTurn(p, i, w).Tried? ==> OneTurn(p, i, w).served == Passes(w, i)
    ensures OneTurn(p, i, w).NoneLeft? ==> NobodyLeft()(OneTurn(p, i, w).s)
  {
    var accts := WithExpiries(p.accts, w.background(i));
    NextFailsIffAllDisabled(accts, p.next, w.clock(i));
    if OneTurn(p, i, w).Tried? {
      AttemptMeans(accts[OneTurn(p, i, w).x], w, i);
    }
  }

  /** How a request ends: served by the last account tried if and only if the answer that counts is below
      500 and not 401, 402 or 403; no answer before was; cancelled if and only if the client left before the
      next attempt; otherwise 503, with every attempt made or no account left. */
  lemma RequestEnds(accts: seq<Account>, next: nat, w: World)
    ensures var r := Request(accts, next, w);
            && Told(r.tried, r.outcome, |accts|, PassesAt(w), w.cancelled)
            && (r.outcome.AllDown503? && |r.tried| < |accts| ==> NobodyLeft()(r.s))
  {
    forall p, i
      ensures Turns(w)(p, i).Tried? ==> Turns(w)(p, i).served == PassesAt(w)(i)
      ensures Turns(w)(p, i).NoneLeft? ==> NobodyLeft()(Turns(w)(p, i).s)
    {
      TurnPasses(p, i, w);
    }
    LoopTold(Turns(w), w.cancelled, Pool(accts, next, []), [], |accts|, PassesAt(w));
    DownMeans(Turns(w), w.cancelled, Pool(accts, next, []), [], |accts|, NobodyLeft());
  }

  // ----- Flags -----

  /** The flag of account `x` after the attempts made. */
  function FlagAfter(flag: Flag, tried: seq<nat>, w: World, x: nat): Flag
  {
    if tried == [] then flag
    else
      var j := |tried| - 1;
      var before := FlagAfter(flag, tried[..j], w, x);
      if tried[j] == x then FlagAfter1(before, w, j) else before
  }

  ghost predicate Reflects(was: seq<Account>, accts: seq<Account>, tried: seq<nat>, w: World)
  {
    && |accts| == |was|
    && forall x :: 0 <= x < |accts| ==>
         accts[x].email == was[x].email && accts[x].flag == FlagAfter(was[x].flag, tried, w, x)
  }

  lemma TurnReflects(was: seq<Account>, p: Pool, tried: seq<nat>, w: World)
    requires Reflects(was, p.accts, tried, w)
    ensures var t := OneTurn(p, |tried|, w); Reflects(was, t.s.accts, if t.Tried? then tried + [t.x] else tried, w)
  {
    var t := OneTurn(p, |tried|, w);
    if t.Tried? {
      AttemptMeans(WithExpiries(p.accts, w.background(|tried|))[t.x], w, |tried|);
      assert (tried + [t.x])[..|tried|] == tried;
    }
  }

  lemma {:induction false} AttemptsReflect(was: seq<Account>, p: Pool, tried: seq<nat>, total: nat, w: World)
    requires Reflects(was, p.accts, tried, w)
    ensures var r := Attempts(p, tried, total, w); Reflects(was, r.s.accts, r.tried, w)
    decreases total - |tried|
  {
    if |tried| < total && !w.cancelled(|tried|) {
      var t := OneTurn(p, |tried|, w);
      TurnReflects(was, p, tried, w);
      if t.Tried? && !t.served {
        AttemptsReflect(was, t.s, tried + [t.x], total, w);
      }
    }
  }

  /** What a request does to the accounts: every flag is as the answers to its attempts say. */
  lemma RequestMarks(accts: seq<Account>, next: nat, w: World)
    ensures var r := Request(accts, next, w); Reflects(accts, r.s.accts, r.tried, w)
  {
    AttemptsReflect(accts, Pool(accts, next, []), [], |accts|, w);
  }

  // ----- Freshness and imports -----

  /** An account is fresh while its token lasts for more than ten minutes. */
  lemma FreshMeans(a: Account, now: int)
    ensures IsFresh(a, now) <==> !a.flag.disabled && a.expiresAt - now > 600_000_000_000
  {
  }

  /** An import replaces the account of its email, or adds one; every other account stays. */
  lemma UpsertMeans(accts: seq<Account>, a: Account)
    requires forall x, y :: 0 <= x < y < |accts| ==> accts[x].email != accts[y].email
    ensures forall b :: b in Upserted(accts, a) <==> b == a || (b in accts && b.email != a.email)
    ensures |Upserted(accts, a)| == if exists b :: b in accts && b.email == a.email then |accts| else |accts| + 1
  {
    var i := IndexOf(accts, a.email);
    var r := Upserted(accts, a);
    if i < |accts| {
      assert accts[i] in accts;
      assert r[i] == a;
    } else {
      assert r[|accts|] == a;
    }
    forall b | b in accts && b.email != a.email
      ensures b in r
    {
      var x :| 0 <= x < |accts| && accts[x] == b;
      assert r[x] == b;
    }
  }

  /** Cleanup keeps exactly the accounts that are not permanently disabled. */
  lemma {:induction false} NotBannedMeans(accts: seq<Account>)
    ensures forall b :: b in NotBanned(accts) <==> b in accts && !(b.flag.disabled && b.flag.at == Zero)
  {
    if accts != [] {
      NotBannedMeans(accts[..|accts| - 1]);
      assert accts == accts[..|accts| - 1] + [accts[|accts| - 1]];
    }
  }
}
