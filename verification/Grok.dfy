/** The Grok account pool: two-pass selection and the attempt loop with token refresh. */
module Grok {
  import opened Prelude
  import opened Lifecycle
  import opened Failover
  import Rotation

  const REFRESH_BUFFER: int := 600 * SECOND
  const DEFAULT_LIFETIME: int := 21600

  datatype Account = Account(email: string, expiresAt: int, flag: Flag)

  predicate IsFresh(a: Account, now: int) {
    !a.flag.disabled && now < a.expiresAt - REFRESH_BUFFER
  }

  function FreshFlags(accts: seq<Account>, now: int): (ok: seq<bool>)
    ensures |ok| == |accts|
    ensures forall x :: 0 <= x < |accts| ==> ok[x] == IsFresh(accts[x], now)
  {
    seq(|accts|, x requires 0 <= x < |accts| => IsFresh(accts[x], now))
  }

  /** The enabled account with the latest expiry among the first `n`, the earliest such on a tie. */
  function Best(accts: seq<Account>, n: nat): (b: Option<nat>)
    requires n <= |accts|
    ensures b.Some? ==> b.value < n && !accts[b.value].flag.disabled
    ensures b.None? ==> forall x :: 0 <= x < n ==> accts[x].flag.disabled
    ensures b.Some? ==> forall x :: 0 <= x < n && !accts[x].flag.disabled ==>
                          accts[x].expiresAt <= accts[b.value].expiresAt
                          && (x < b.value ==> accts[x].expiresAt < accts[b.value].expiresAt)
  {
    if n == 0 then None
    else
      var b := Best(accts, n - 1);
      if accts[n - 1].flag.disabled then b
      else if b.None? || accts[n - 1].expiresAt > accts[b.value].expiresAt then Some(n - 1)
      else b
  }

  datatype Choice = Choice(picked: Option<nat>, next: nat)

  function NextSpec(accts: seq<Account>, next: nat, now: int): (c: Choice)
    ensures c.picked.Some? ==> c.picked.value < |accts| && !accts[c.picked.value].flag.disabled
  {
    if accts == [] then Choice(None, next)
    else
      var p := Rotation.Pick(FreshFlags(accts, now), next);
      if p.Some? then Choice(p, Rotation.Next(p.value, |accts|))
      else
        var b := Best(accts, |accts|);
        Choice(b, if b.Some? then Rotation.Pos(next, 1, |accts|) else next)
  }

  /** Selection fails exactly when every account is disabled. */
  lemma NextFailsIffAllDisabled(accts: seq<Account>, next: nat, now: int)
    ensures NextSpec(accts, next, now).picked.None? <==> forall x :: 0 <= x < |accts| ==> accts[x].flag.disabled
  {
    if accts != [] {
      Rotation.PickFailsIffNone(FreshFlags(accts, now), next);
      var b := Best(accts, |accts|);
      if b.Some? {
        assert !accts[b.value].flag.disabled;
      }
      var p := Rotation.Pick(FreshFlags(accts, now), next);
      if p.Some? {
        assert IsFresh(accts[p.value], now);
      }
    }
  }

  /** With no fresh account left, every cursor yields the same account: the second pass does not rotate. */
  lemma SecondPassSticks(accts: seq<Account>, next: nat, next': nat, now: int)
    requires forall x :: 0 <= x < |accts| ==> !IsFresh(accts[x], now)
    ensures NextSpec(accts, next, now).picked == NextSpec(accts, next', now).picked
    ensures accts != [] ==>
              NextSpec(accts, next, now).next == if NextSpec(accts, next, now).picked.Some? then (next + 1) % |accts| else next
  {
    if accts != [] {
      Rotation.PosIsMod(next, 1, |accts|);
    }
    if accts != [] {
      Rotation.PickFailsIffNone(FreshFlags(accts, now), next);
      Rotation.PickFailsIffNone(FreshFlags(accts, now), next');
    }
  }

  // ----- Fairness of the first pass -----

  /** The accounts returned by selections at the given times. */
  function Selections(accts: seq<Account>, next: nat, times: seq<int>): seq<Option<nat>>
    decreases |times|
  {
    if times == [] then []
    else
      var c := NextSpec(accts, next, times[0]);
      [c.picked] + Selections(accts, c.next, times[1..])
  }

  function Found(ps: seq<nat>): (r: seq<Option<nat>>)
    ensures |r| == |ps| && forall i :: 0 <= i < |ps| ==> r[i] == Some(ps[i])
  {
    seq(|ps|, i requires 0 <= i < |ps| => Some(ps[i]))
  }

  /** While the set of fresh accounts stays the same, selections are the picks of the cyclic scan. */
  lemma {:induction false} SelectionsArePicks(accts: seq<Account>, next: nat, times: seq<int>, ok: seq<bool>)
    requires forall i :: 0 <= i < |times| ==> FreshFlags(accts, times[i]) == ok
    requires times != [] ==> |ok| == |accts| && exists x :: 0 <= x < |ok| && ok[x]
    ensures Selections(accts, next, times) == Found(Rotation.Picks(ok, next, |times|))
    decreases |times|
  {
    if times != [] {
      Rotation.PickFailsIffNone(ok, next);
      assert FreshFlags(accts, times[0]) == ok;
      var p := Rotation.Pick(ok, next);
      var next' := Rotation.Next(p.value, |ok|);
      SelectionsArePicks(accts, next', times[1..], ok);
      assert Rotation.Picks(ok, next, |times|) == [p.value] + Rotation.Picks(ok, next', |times| - 1);
    }
  }

  /** Cyclic fairness of the first pass: k selections over k fresh accounts return each exactly once. */
  lemma FirstPassFair(accts: seq<Account>, next: nat, times: seq<int>, ok: seq<bool>)
    requires forall i :: 0 <= i < |times| ==> FreshFlags(accts, times[i]) == ok
    requires |ok| == |accts| && |times| == |Rotation.Eligible(ok)|
    ensures var s := Selections(accts, next, times);
            && (forall i :: 0 <= i < |s| ==> s[i].Some?)
            && (forall i, j :: 0 <= i < j < |s| ==> s[i] != s[j])
            && (forall x :: 0 <= x < |ok| ==> (ok[x] <==> Some(x) in s))
  {
    Rotation.Fair(ok, next);
    var ps := Rotation.Picks(ok, next, |times|);
    Rotation.NoneEligible(ok);
    SelectionsArePicks(accts, next, times, ok);
    forall x | 0 <= x < |ok|
      ensures ok[x] <==> Some(x) in Found(ps)
    {
      assert ok[x] <==> x in Rotation.Eligible(ok);
      if x in ps {
        var i :| 0 <= i < |ps| && ps[i] == x;
        assert Found(ps)[i] == Some(x);
      }
    }
  }

  // ----- One attempt -----

  datatype Answer = NetworkError | Reply(status: int, permanentMarker: bool)

  datatype Refresh = Refreshed(expiresAt: int) | InvalidGrant | RefreshFailed

  datatype Reaction = Retry | Disable(v: Verdict) | Serve

  function ReactFinal(a: Answer): Reaction
  {
    if a.NetworkError? then Retry
    else if a.status == 402 || a.status == 403 then
      Disable(if a.status == 402 || a.permanentMarker then Forever else ForNow)
    else if a.status >= 500 then Retry
    else Serve
  }

  /** A 401 is answered by a refresh and one more try with the new token. */
  function React(first: Answer, refresh: Refresh, second: Answer): Reaction
  {
    if first.Reply? && first.status == 401 then
      match refresh
      case InvalidGrant => Disable(Forever)
      case RefreshFailed => Retry
      case Refreshed(_) =>
        if second.Reply? && second.status == 401 then Disable(Forever) else ReactFinal(second)
    else ReactFinal(first)
  }

  /** The account after an attempt. */
  function Attempted(a: Account, w: World, i: nat): Account
  {
    var a1 := if w.first(i).Reply? && w.first(i).status == 401 && w.refresh(i).Refreshed?
              then a.(expiresAt := w.refresh(i).expiresAt) else a;
    var r := React(w.first(i), w.refresh(i), w.second(i));
    if r.Disable? then a1.(flag := Punished(r.v, w.clock(i))) else a1
  }

  // ----- The attempt loop -----

  /** Answers, refresh outcomes and clock per attempt; `background(i)` holds the expiries that other
      refreshes have set by the time of attempt i. */
  datatype World = World(
    first: nat -> Answer, refresh: nat -> Refresh, second: nat -> Answer,
    cancelled: nat -> bool, clock: nat -> int, background: nat -> map<nat, int>)

  /** The pool and the time at which an account was selected. */
  datatype Look = Look(accts: seq<Account>, now: int)

  /** The pool, and every selection so far. */
  datatype Pool = Pool(accts: seq<Account>, next: nat, looks: seq<Look>)

  function WithExpiries(accts: seq<Account>, e: map<nat, int>): (r: seq<Account>)
    ensures |r| == |accts|
    ensures forall x :: 0 <= x < |accts| ==>
              r[x] == if x in e then accts[x].(expiresAt := e[x]) else accts[x]
  {
    seq(|accts|, x requires 0 <= x < |accts| => if x in e then accts[x].(expiresAt := e[x]) else accts[x])
  }

  /** One attempt: other refreshes, the selection, and what the answers do to the selected account. */
  function OneTurn(p: Pool, i: nat, w: World): (t: Turn<Pool>)
    ensures |t.s.accts| == |p.accts|
  {
    var accts := WithExpiries(p.accts, w.background(i));
    var looks := p.looks + [Look(accts, w.clock(i))];
    var c := NextSpec(accts, p.next, w.clock(i));
    if c.picked.None? then NoneLeft(Pool(accts, c.next, looks))
    else
      var x := c.picked.value;
      Tried(x, Pool(accts[x := Attempted(accts[x], w, i)], c.next, looks),
            React(w.first(i), w.refresh(i), w.second(i)).Serve?)
  }

  function Turns(w: World): (Pool, nat) -> Turn<Pool> {
    (p: Pool, i: nat) => OneTurn(p, i, w)
  }

  function Attempts(p: Pool, tried: seq<nat>, total: nat, w: World): Trip<Pool> {
    Loop(Turns(w), w.cancelled, p, tried, total)
  }

  /** A request on a pool: at most one attempt per account. */
  function Request(accts: seq<Account>, next: nat, w: World): Trip<Pool> {
    Attempts(Pool(accts, next, []), [], |accts|, w)
  }

  /** Whenever an account was selected, the accounts in `need` that were enabled were fresh. */
  ghost predicate Steady(looks: seq<Look>, need: set<nat>)
  {
    forall l, x :: l in looks && x in need && x < |l.accts| && !l.accts[x].flag.disabled ==> IsFresh(l.accts[x], l.now)
  }

  ghost predicate Owed(accts: seq<Account>, need: set<nat>, tried: seq<nat>) {
    forall x :: x in need && x !in tried ==> x < |accts| && !accts[x].flag.disabled
  }

  /** The step of the coverage argument: a selection from the first pass covers more, or nothing is owed. */
  lemma LookCovers(accts: seq<Account>, start: nat, d: nat, need: set<nat>, tried: seq<nat>, now: int)
    requires |accts| > 0 && Owed(accts, need, tried)
    requires forall x :: x in need && x !in tried ==> x < |accts| && IsFresh(accts[x], now)
    requires Rotation.Covered(|accts|, start, d, need, tried)
    ensures var c := NextSpec(accts, Rotation.Pos(start, d, |accts|), now);
            var d' := Rotation.Advance(FreshFlags(accts, now), start, d);
            || (forall x :: x in need ==> x in tried)
            || (c.picked.Some? && d' > d && c.next == Rotation.Pos(start, d', |accts|)
                && Rotation.Covered(|accts|, start, d', need, tried + [c.picked.value]))
  {
    var ok := FreshFlags(accts, now);
    var cursor := Rotation.Pos(start, d, |accts|);
    if Rotation.Pick(ok, cursor).None? {
      Rotation.PickFailsIffNone(ok, cursor);
    } else {
      Rotation.PickCovers(ok, start, d, need, tried);
    }
  }

  /** The look of the current attempt is on record. */
  lemma CurrentLook(p: Pool, tried: seq<nat>, total: nat, w: World)
    requires |tried| < total && !w.cancelled(|tried|)
    ensures Look(WithExpiries(p.accts, w.background(|tried|)), w.clock(|tried|)) in Attempts(p, tried, total, w).s.looks
  {
    var i := |tried|;
    var t := OneTurn(p, i, w);
    var look := Look(WithExpiries(p.accts, w.background(i)), w.clock(i));
    assert t.s.looks[|p.looks|] == look;
    if t.Tried? && !t.served {
      LoopKeeps(Turns(w), w.cancelled, t.s, tried + [t.x], total, (q: Pool, ts: seq<nat>) => look in q.looks);
    }
  }

  lemma {:induction false} AttemptsCover(p: Pool, start: nat, d: nat, need: set<nat>, tried: seq<nat>, w: World)
    requires var n := |p.accts|;
             && n > 0 && |tried| <= n && |tried| <= d && (forall x :: x in need ==> x < n)
             && p.next == Rotation.Pos(start, d, n) && Rotation.Covered(n, start, d, need, tried)
    requires Owed(p.accts, need, tried)
    requires Steady(Attempts(p, tried, |p.accts|, w).s.looks, need)
    ensures var r := Attempts(p, tried, |p.accts|, w);
            r.outcome.AllDown503? ==> forall x :: x in need ==> x in r.tried
    decreases |p.accts| - |tried|
  {
    var n := |p.accts|;
    var i := |tried|;
    if i == n {
      Rotation.CoveredAll(n, start, d, need, tried);
    } else if forall x :: x in need ==> x in tried {
      TriedGrow(Turns(w), w.cancelled, p, tried, n);
    } else if !w.cancelled(i) {
      var accts := WithExpiries(p.accts, w.background(i));
      var now := w.clock(i);
      var t := OneTurn(p, i, w);
      CurrentLook(p, tried, n, w);
      LookCovers(accts, start, d, need, tried, now);
      if !t.served {
        AttemptsCover(t.s, start, Rotation.Advance(FreshFlags(accts, now), start, d), need, tried + [t.x], w);
      }
    }
  }

  /** Failover is complete for accounts that stay fresh: a request answers 503 only after it tried every
      account that was enabled at its start and fresh whenever an account was selected. */
  lemma FailoverComplete(accts: seq<Account>, next: nat, need: set<nat>, w: World)
    requires forall x :: x in need ==> x < |accts| && !accts[x].flag.disabled
    requires Steady(Request(accts, next, w).s.looks, need)
    ensures var r := Request(accts, next, w);
            r.outcome.AllDown503? ==> forall x :: x in need ==> x in r.tried
  {
    if |accts| > 0 && !w.cancelled(0) {
      StartAtRemainder(accts, next, w);
      AttemptsCover(Pool(accts, Rotation.Pos(next, 0, |accts|), []), next, 0, need, [], w);
    }
  }

  lemma TurnSame(accts: seq<Account>, next: nat, w: World)
    requires |accts| > 0
    ensures var a := OneTurn(Pool(accts, next, []), 0, w); var b := OneTurn(Pool(accts, Rotation.Pos(next, 0, |accts|), []), 0, w);
            a == b || (a.NoneLeft? && b.NoneLeft? && a.s.looks == b.s.looks)
  {
    var now := WithExpiries(accts, w.background(0));
    Rotation.StaleCursor(FreshFlags(now, w.clock(0)), next, 0);
    Rotation.PosCompose(next, 0, 1, |accts|);
  }

  /** The first pick already brings a stale cursor back into range. */
  lemma StartAtRemainder(accts: seq<Account>, next: nat, w: World)
    requires |accts| > 0 && !w.cancelled(0)
    ensures var a := Request(accts, next, w); var b := Request(accts, Rotation.Pos(next, 0, |accts|), w);
            a.tried == b.tried && a.outcome == b.outcome && a.s.looks == b.s.looks
  {
    TurnSame(accts, next, w);
  }

  // ----- The pool as the program keeps it -----

  function IndexOf(accts: seq<Account>, email: string): (i: nat)
    ensures i <= |accts| && (i < |accts| ==> accts[i].email == email)
    ensures forall x :: 0 <= x < i ==> accts[x].email != email
  {
    if accts == [] || accts[0].email == email then 0 else 1 + IndexOf(accts[1..], email)
  }

  function Upserted(accts: seq<Account>, a: Account): seq<Account>
  {
    var i := IndexOf(accts, a.email);
    if i < |accts| then accts[i := a] else accts + [a]
  }

  function NotBanned(accts: seq<Account>): seq<Account>
  {
    if accts == [] then []
    else
      var last := accts[|accts| - 1];
      NotBanned(accts[..|accts| - 1]) + (if ClassOf(last.flag).Permanent? then [] else [last])
  }

  class GrokAccountManager {
    var accounts: seq<Account>
    var next: nat

    constructor ()
      ensures accounts == [] && next == 0
    {
      accounts, next := [], 0;
    }

    /** First pass: the next fresh account in cyclic order. */
    method FirstPass(now: int) returns (r: Option<nat>)
      requires accounts != []
      modifies this`next
      ensures r == Rotation.Pick(FreshFlags(accounts, now), old(next))
      ensures next == if r.Some? then Rotation.Next(r.value, |accounts|) else old(next)
    {
      ghost var ok := FreshFlags(accounts, now);
      var n := |accounts|;
      var i := 0;
      while i < n
        invariant 0 <= i <= n && Rotation.Gap(ok, next, 0) == Rotation.Gap(ok, next, i)
        invariant next == old(next)
      {
        var idx := (next + i) % n;
        Rotation.PosIsMod(next, i, n);
        if !accounts[idx].flag.disabled && now < accounts[idx].expiresAt - REFRESH_BUFFER {
          Rotation.SuccMod(idx, n);
          Rotation.DivisionIsUnique(idx, n, 0, idx);
          next := (idx + 1) % n;
          return Some(idx);
        }
        i := i + 1;
      }
      r := None;
    }

    method Next(now: int) returns (r: Option<nat>)
      modifies this`next
      ensures Choice(r, next) == NextSpec(accounts, old(next), now)
    {
      if |accounts| == 0 {
        return None;
      }
      r := FirstPass(now);
      if r.Some? {
        return;
      }
      var i := 0;
      while i < |accounts|
        invariant 0 <= i <= |accounts| && next == old(next)
        invariant r == Best(accounts, i)
      {
        if !accounts[i].flag.disabled && (r.None? || accounts[i].expiresAt > accounts[r.value].expiresAt) {
          r := Some(i);
        }
        i := i + 1;
      }
      if r.Some? {
        Rotation.PosIsMod(next, 1, |accounts|);
        next := (next + 1) % |accounts|;
      }
    }

    /** The only operation that clears a permanent disable. */
    method UpsertAccount(email: string, expiresIn: int, now: int) returns (created: bool)
      modifies this`accounts
      ensures var life := if expiresIn == 0 then 21600 else expiresIn;
              accounts == Upserted(old(accounts), Account(email, now + life * 1_000_000_000, Flag(false, Zero)))
      ensures created <==> forall x :: 0 <= x < |old(accounts)| ==> old(accounts)[x].email != email
    {
      var life := if expiresIn == 0 then DEFAULT_LIFETIME else expiresIn;
      var a := Account(email, now + life * SECOND, FRESH);
      var i := 0;
      while i < |accounts|
        invariant 0 <= i <= |accounts| && accounts == old(accounts)
        invariant forall x :: 0 <= x < i ==> accounts[x].email != email
      {
        if accounts[i].email == email {
          accounts := accounts[i := a];
          return false;
        }
        i := i + 1;
      }
      accounts := accounts + [a];
      created := true;
    }

    method ReenableCooldowns(now: int)
      modifies this`accounts
      ensures |accounts| == |old(accounts)|
      ensures forall x :: 0 <= x < |accounts| ==>
                accounts[x] == old(accounts)[x].(flag := Reenabled(old(accounts)[x].flag, now))
    {
      var i := 0;
      while i < |accounts|
        invariant 0 <= i <= |accounts| == |old(accounts)|
        invariant forall x :: 0 <= x < i ==>
                    accounts[x] == old(accounts)[x].(flag := Reenabled(old(accounts)[x].flag, now))
        invariant forall x :: i <= x < |accounts| ==> accounts[x] == old(accounts)[x]
      {
        var a := accounts[i];
        if a.flag.disabled && a.flag.at.At? && now - a.flag.at.t > COOLDOWN {
          accounts := accounts[i := a.(flag := a.flag.(disabled := false))];
        }
        i := i + 1;
      }
    }

    method CleanupBanned() returns (removed: nat)
      modifies this`accounts
      ensures accounts == NotBanned(old(accounts)) && removed + |accounts| == |old(accounts)|
    {
      removed := 0;
      var kept := [];
      var i := 0;
      while i < |accounts|
        invariant 0 <= i <= |accounts| && accounts == old(accounts)
        invariant kept == NotBanned(accounts[..i]) && removed + |kept| == i
      {
        assert accounts[..i + 1][..i] == accounts[..i];
        if accounts[i].flag.disabled && accounts[i].flag.at.Zero? {
          removed := removed + 1;
        } else {
          kept := kept + [accounts[i]];
        }
        i := i + 1;
      }
      assert accounts[..i] == accounts;
      accounts := kept;
    }

    /** The attempt loop of a request; `w.background` stands for refreshes by others. */
    method ProxyGrok(w: World) returns (tried: seq<nat>, ghost looks: seq<Look>, outcome: Outcome)
      modifies this
      ensures Trip(Pool(accounts, next, looks), tried, outcome) == Request(old(accounts), old(next), w)
    {
      var total := |accounts|;
      tried, looks, outcome := [], [], AllDown503;
      ghost var goal := Request(accounts, next, w);
      while |tried| < total
        invariant |tried| <= total == |accounts| && outcome == AllDown503
        invariant goal == Attempts(Pool(accounts, next, looks), tried, total, w)
        decreases total - |tried|
      {
        var attempt := |tried|;
        ghost var t := OneTurn(Pool(accounts, next, looks), attempt, w);
        if w.cancelled(attempt) {
          outcome := Cancelled;
          return;
        }
        accounts := WithExpiries(accounts, w.background(attempt));
        looks := looks + [Look(accounts, w.clock(attempt))];
        var p := Next(w.clock(attempt));
        if p.None? {
          break;
        }
        var x := p.value;
        tried := tried + [x];
        var served := Attempt(x, w, attempt);
        if served {
          outcome := Served(x);
          return;
        }
      }
    }

    method Attempt(x: nat, w: World, i: nat) returns (served: bool)
      requires x < |accounts|
      modifies this`accounts
      ensures accounts == old(accounts)[x := Attempted(old(accounts)[x], w, i)]
      ensures served <==> React(w.first(i), w.refresh(i), w.second(i)).Serve?
    {
      var resp := w.first(i);
      served := false;
      if resp.NetworkError? {
        return;
      }
      if resp.status == 401 {
        var refreshed := w.refresh(i);
        match refreshed {
          case InvalidGrant =>
            accounts := accounts[x := accounts[x].(flag := Flag(true, Zero))];
            return;
          case RefreshFailed =>
            return;
          case Refreshed(e) =>
            accounts := accounts[x := accounts[x].(expiresAt := e)];
        }
        resp := w.second(i);
        if resp.NetworkError? {
          return;
        }
        if resp.status == 401 {
          accounts := accounts[x := accounts[x].(flag := Flag(true, Zero))];
          return;
        }
      }
      if resp.status == 402 || resp.status == 403 {
        var at := if resp.status == 402 || resp.permanentMarker then Zero else At(w.clock(i));
        accounts := accounts[x := accounts[x].(flag := Flag(true, at))];
        return;
      }
      served := resp.status < 500;
    }
  }
}
