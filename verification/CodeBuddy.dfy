/** The CodeBuddy key pool and the attempt loop of one request. */
module CodeBuddy {
  import opened Prelude
  import opened Lifecycle
  import Rotation

  datatype Key = Key(name: string, flag: Flag, credits: real, requests: int)

  datatype SavedKey = SavedKey(credits: real, requests: int, flag: SavedFlag)

  function NewKey(name: string): Key {
    Key(name, FRESH, 0.0, 0)
  }

  predicate IsSpace(c: char) {
    c == ' ' || ('\t' <= c <= '\r')
  }

  /** `strings.TrimSpace` for ASCII white space. */
  function TrimSpace(s: string): (t: string)
    ensures t != "" ==> !IsSpace(t[0]) && !IsSpace(t[|t| - 1])
  {
    if s == "" then s
    else if IsSpace(s[0]) then TrimSpace(s[1..])
    else if IsSpace(Last(s)) then TrimSpace(Init(s))
    else s
  }

  predicate AllSpace(s: string) {
    forall c :: c in s ==> IsSpace(c)
  }

  /** Only white space is cut, and only at the ends. */
  lemma {:induction false} TrimSpaceCuts(s: string) returns (left: string, right: string)
    ensures s == left + TrimSpace(s) + right && AllSpace(left) && AllSpace(right)
  {
    left, right := "", "";
    if s != "" && IsSpace(s[0]) {
      left, right := TrimSpaceCuts(s[1..]);
      Associative([s[0]], left + TrimSpace(s), right);
      Associative([s[0]], left, TrimSpace(s));
      assert s == [s[0]] + s[1..];
      left := [s[0]] + left;
    } else if s != "" && IsSpace(Last(s)) {
      left, right := TrimSpaceCuts(Init(s));
      Associative(left + TrimSpace(s), right, [Last(s)]);
      assert s == Init(s) + [Last(s)];
      right := right + [Last(s)];
    }
  }

  function SaveOf(k: Key): SavedKey {
    SavedKey(k.credits, k.requests, Save(k.flag))
  }

  /** A row holds the credits, the requests, and whether and since when (in whole seconds) the key is disabled. */
  lemma RowMeans(k: Key)
    ensures var row := SaveOf(k);
            && row.credits == k.credits && row.requests == k.requests && row.flag.disabled == k.flag.disabled
            && (k.flag.at.At? ==> row.flag.unix == k.flag.at.t / 1_000_000_000)
            && (k.flag.at.Zero? ==> row.flag.unix < 0)
  {
  }

  function Enabled(keys: seq<Key>): (ok: seq<bool>)
    ensures |ok| == |keys|
    ensures forall x :: 0 <= x < |keys| ==> ok[x] == !keys[x].flag.disabled
  {
    seq(|keys|, x requires 0 <= x < |keys| => !keys[x].flag.disabled)
  }

  // ----- One attempt -----

  /** The error codes the program looks for in an error body. */
  datatype Body = Body(trialInactive: bool, banned: bool, exhausted: bool, badParams: bool, noModel: bool)

  datatype Answer = NetworkError | Reply(status: int, body: Body)

  datatype Reaction = Retry | Disable(v: Verdict) | RejectParams | RejectModel | Serve

  /** What the loop does with an answer. */
  function React(a: Answer): Reaction
  {
    if a.NetworkError? then Retry
    else if a.status == 401 then Disable(Forever)
    else if a.status == 429 then Disable(if a.body.trialInactive then Forever else ForNow)
    else if 400 <= a.status < 500 then
      if a.status == 403 && a.body.banned then Disable(Forever)
      else if a.body.exhausted then Disable(Forever)
      else if a.status == 400 && a.body.badParams then RejectParams
      else if a.status == 400 && a.body.noModel then RejectModel
      else Disable(ForNow)
    else if a.status >= 500 then Retry
    else Serve
  }

  // ----- The attempt loop -----

  /** What the outside does at each attempt. */
  datatype World = World(answer: nat -> Answer, cancelled: nat -> bool, clock: nat -> int)

  datatype Outcome = AllDisabled503 | Cancelled | Rejected400 | Served(x: nat)

  datatype Result = Result(keys: seq<Key>, next: nat, tried: seq<nat>, outcome: Outcome)

  function Disabled(keys: seq<Key>, x: nat, v: Verdict, now: int): (r: seq<Key>)
    requires x < |keys|
    ensures |r| == |keys|
  {
    keys[x := keys[x].(flag := Punished(v, now))]
  }

  function Attempts(keys: seq<Key>, next: nat, tried: seq<nat>, a: nat, total: nat, w: World): Result
    decreases total - a
  {
    if a >= total then Result(keys, next, tried, AllDisabled503)
    else if w.cancelled(a) then Result(keys, next, tried, Cancelled)
    else
      var p := Rotation.Pick(Enabled(keys), next);
      if p.None? then Result(keys, next, tried, AllDisabled503)
      else
        var x := p.value;
        var next' := Rotation.Next(x, |keys|);
        match React(w.answer(a))
        case Retry => Attempts(keys, next', tried + [x], a + 1, total, w)
        case Disable(v) => Attempts(Disabled(keys, x, v, w.clock(a)), next', tried + [x], a + 1, total, w)
        case RejectParams => Result(keys, next', tried + [x], Rejected400)
        case RejectModel => Result(keys, next', tried + [x], Rejected400)
        case Serve => Result(keys, next', tried + [x], Served(x))
  }

  ghost predicate Untouched(keys: seq<Key>, was: seq<Key>, tried: seq<nat>)
  {
    && |keys| == |was|
    && (forall x :: 0 <= x < |keys| && x !in tried ==> keys[x] == was[x])
    && (forall x :: 0 <= x < |keys| && was[x].flag.disabled ==> keys[x].flag.disabled)
    && (forall x :: x in tried ==> x < |keys| && !was[x].flag.disabled)
  }

  lemma TryOne(was: seq<Key>, keys: seq<Key>, tried: seq<nat>, x: nat, k: Key)
    requires Untouched(keys, was, tried) && x < |keys| && !keys[x].flag.disabled
    requires k == keys[x] || k.flag.disabled
    ensures Untouched(keys[x := k], was, tried + [x])
  {
  }

  /** Only tried keys change, and only keys that were enabled at the start are tried. */
  lemma {:induction false} AttemptsTouchOnlyTried(was: seq<Key>, keys: seq<Key>, next: nat, tried: seq<nat>,
                                                  a: nat, total: nat, w: World)
    requires Untouched(keys, was, tried)
    ensures var r := Attempts(keys, next, tried, a, total, w);
            && Untouched(r.keys, was, r.tried) && (forall x :: x in tried ==> x in r.tried)
            && (r.outcome.Served? ==> r.tried != [] && r.tried[|r.tried| - 1] == r.outcome.x)
    decreases total - a
  {
    if a < total && !w.cancelled(a) {
      var p := Rotation.Pick(Enabled(keys), next);
      if p.Some? {
        var x := p.value;
        var next' := Rotation.Next(x, |keys|);
        var tried' := tried + [x];
        TryOne(was, keys, tried, x, keys[x]);
        assert keys[x := keys[x]] == keys;
        match React(w.answer(a)) {
          case Retry => AttemptsTouchOnlyTried(was, keys, next', tried', a + 1, total, w);
          case Disable(v) =>
            TryOne(was, keys, tried, x, keys[x].(flag := Punished(v, w.clock(a))));
            AttemptsTouchOnlyTried(was, Disabled(keys, x, v, w.clock(a)), next', tried', a + 1, total, w);
          case RejectParams =>
          case RejectModel =>
          case Serve =>
        }
      }
    }
  }

  /** The keys the request still owes a try are enabled. */
  ghost predicate Owed(keys: seq<Key>, need: set<nat>, tried: seq<nat>) {
    forall x :: x in need && x !in tried ==> x < |keys| && !keys[x].flag.disabled
  }

  lemma {:induction false} AttemptsCover(keys: seq<Key>, start: nat, d: nat, need: set<nat>, tried: seq<nat>,
                                         a: nat, w: World)
    requires |keys| > 0 && a <= |keys| && a <= d
    requires Owed(keys, need, tried) && (forall x :: x in need ==> x < |keys|)
    requires Rotation.Covered(|keys|, start, d, need, tried)
    ensures var r := Attempts(keys, Rotation.Pos(start, d, |keys|), tried, a, |keys|, w);
            r.outcome.AllDisabled503? ==> forall x :: x in need ==> x in r.tried
    decreases |keys| - a
  {
    var n := |keys|;
    var cursor := Rotation.Pos(start, d, n);
    if a == n {
      Rotation.CoveredAll(n, start, d, need, tried);
    } else if !w.cancelled(a) {
      var ok := Enabled(keys);
      var p := Rotation.Pick(ok, cursor);
      if p.None? {
        Rotation.PickFailsIffNone(ok, cursor);
      } else {
        var x := p.value;
        var d' := Rotation.Advance(ok, start, d);
        Rotation.PickCovers(ok, start, d, need, tried);
        match React(w.answer(a)) {
          case Retry => AttemptsCover(keys, start, d', need, tried + [x], a + 1, w);
          case Disable(v) =>
            AttemptsCover(Disabled(keys, x, v, w.clock(a)), start, d', need, tried + [x], a + 1, w);
          case RejectParams =>
          case RejectModel =>
          case Serve =>
        }
      }
    }
  }

  function EnabledSet(keys: seq<Key>): set<nat> {
    set x | 0 <= x < |keys| && !keys[x].flag.disabled
  }

  /** Failover is complete: from any cursor, also a stale one, a request answers 503 only after it tried
      every key that was enabled at its start, whatever mix of network errors, 4xx and 5xx it met. */
  lemma FailoverComplete(keys: seq<Key>, next: nat, w: World)
    ensures var r := Attempts(keys, next, [], 0, |keys|, w);
            r.outcome.AllDisabled503? ==> forall x :: x in r.tried <==> x in EnabledSet(keys)
  {
    var r := Attempts(keys, next, [], 0, |keys|, w);
    AttemptsTouchOnlyTried(keys, keys, next, [], 0, |keys|, w);
    if |keys| > 0 && !w.cancelled(0) {
      StartAtRemainder(keys, next, w);
      AttemptsCover(keys, next, 0, EnabledSet(keys), [], 0, w);
    }
  }

  /** The first pick already brings a stale cursor back into range. */
  lemma StartAtRemainder(keys: seq<Key>, next: nat, w: World)
    requires |keys| > 0 && !w.cancelled(0)
    ensures var a := Attempts(keys, next, [], 0, |keys|, w);
            var b := Attempts(keys, Rotation.Pos(next, 0, |keys|), [], 0, |keys|, w);
            a.tried == b.tried && a.outcome == b.outcome
  {
    Rotation.StaleCursor(Enabled(keys), next, 0);
  }

  // ----- The pool as the program keeps it -----

  function Kept(keys: seq<Key>): seq<Key>
  {
    if keys == [] then []
    else
      var last := keys[|keys| - 1];
      Kept(keys[..|keys| - 1]) + (if ClassOf(last.flag).Permanent? then [] else [last])
  }

  /** Cleanup keeps exactly the keys that are not permanently disabled. */
  lemma {:induction false} KeptAre(keys: seq<Key>)
    ensures forall k :: k in Kept(keys) <==> k in keys && !ClassOf(k.flag).Permanent?
  {
    if keys != [] {
      KeptAre(keys[..|keys| - 1]);
      assert keys == keys[..|keys| - 1] + [keys[|keys| - 1]];
    }
  }

  ghost predicate DistinctNames(keys: seq<Key>) {
    forall x, y :: 0 <= x < y < |keys| ==> keys[x].name != keys[y].name
  }

  lemma {:induction false} KeptDistinct(keys: seq<Key>)
    requires DistinctNames(keys)
    ensures DistinctNames(Kept(keys))
  {
    if keys != [] {
      var front, last := keys[..|keys| - 1], keys[|keys| - 1];
      KeptDistinct(front);
      KeptAre(front);
      forall x | 0 <= x < |Kept(front)|
        ensures Kept(front)[x].name != last.name
      {
        assert Kept(front)[x] in front;
      }
    }
  }

  function AllReenabled(keys: seq<Key>, now: int): (r: seq<Key>)
    ensures |r| == |keys|
    ensures forall x :: 0 <= x < |keys| ==> r[x] == keys[x].(flag := Reenabled(keys[x].flag, now))
  {
    seq(|keys|, x requires 0 <= x < |keys| => keys[x].(flag := Reenabled(keys[x].flag, now)))
  }

  class CBKeyManager {
    var keys: seq<Key>
    var next: nat
    // the Redis hashes by key
    var store: map<string, SavedKey>

    ghost predicate Stored(k: Key)
      reads this`store
    {
      k.name in store && store[k.name] == SaveOf(k)
    }

    /** Distinct names, and the store holds every key's class and credits. */
    ghost predicate Valid()
      reads this
    {
      DistinctNames(keys) && forall x :: 0 <= x < |keys| ==> Stored(keys[x])
    }

    constructor ()
      ensures Valid() && keys == [] && next == 0
    {
      keys, next, store := [], 0, map[];
    }

    method Next() returns (r: Option<nat>)
      modifies this`next
      ensures r == Rotation.Pick(Enabled(keys), old(next))
      ensures next == if r.Some? then Rotation.Next(r.value, |keys|) else old(next)
    {
      ghost var ok := Enabled(keys);
      var n := |keys|;
      var i := 0;
      while i < n
        invariant 0 <= i <= n && Rotation.Gap(ok, next, 0) == Rotation.Gap(ok, next, i)
        invariant next == old(next)
      {
        var idx := (next + i) % n;
        Rotation.PosIsMod(next, i, n);
        if !keys[idx].flag.disabled {
          Rotation.PosIsMod(idx + 1, 0, n);
          Rotation.SuccMod(next + i, n);
          next := (idx + 1) % n;
          Rotation.SuccMod(idx, n);
          Rotation.DivisionIsUnique(idx, n, 0, idx);
          return Some(idx);
        }
        i := i + 1;
      }
      r := None;
    }

    method AddKey(raw: string) returns (added: bool)
      requires Valid()
      modifies this`keys, this`store
      ensures Valid()
      ensures var apiKey := TrimSpace(raw);
              && (added <==> apiKey != "" && forall x :: 0 <= x < |old(keys)| ==> old(keys)[x].name != apiKey)
              && keys == if added then old(keys) + [Key(apiKey, Flag(false, Zero), 0.0, 0)] else old(keys)
    {
      var apiKey := TrimSpace(raw);
      if apiKey == "" {
        return false;
      }
      var i := 0;
      while i < |keys|
        invariant 0 <= i <= |keys| && forall x :: 0 <= x < i ==> keys[x].name != apiKey
      {
        if keys[i].name == apiKey {
          return false;
        }
        i := i + 1;
      }
      keys := keys + [NewKey(apiKey)];
      store := store[apiKey := SaveOf(NewKey(apiKey))];
      added := true;
    }

    /** The cursor is not adjusted. */
    method DeleteKey(name: string) returns (found: bool)
      requires Valid()
      modifies this`keys, this`store
      ensures Valid()
      ensures found <==> exists x :: 0 <= x < |old(keys)| && old(keys)[x].name == name
      ensures !found ==> keys == old(keys) && store == old(store)
      ensures found ==> exists x :: 0 <= x < |old(keys)| && old(keys)[x].name == name
                                    && keys == old(keys)[..x] + old(keys)[x + 1..] && name !in store
    {
      var i := 0;
      while i < |keys|
        invariant 0 <= i <= |keys| && keys == old(keys) && store == old(store) && Valid()
        invariant forall x :: 0 <= x < i ==> keys[x].name != name
      {
        if keys[i].name == name {
          keys := keys[..i] + keys[i + 1..];
          store := store - {name};
          return true;
        }
        i := i + 1;
      }
      found := false;
    }

    /** Set one key and write it to the store. */
    method SetKey(x: nat, k: Key)
      requires Valid() && x < |keys| && k.name == keys[x].name
      modifies this`keys, this`store
      ensures Valid() && keys == old(keys)[x := k]
    {
      keys := keys[x := k];
      store := store[k.name := SaveOf(k)];
    }

    /** Two passes: the keys change first, the copies taken meanwhile are written afterwards. */
    method ReenableCooldowns(now: int)
      requires Valid()
      modifies this`keys, this`store
      ensures Valid() && keys == AllReenabled(old(keys), now)
    {
      var snaps := LiftCooldowns(now);
      WriteSnapshots(snaps);
    }

    /** The first pass; the store still holds the old keys, `snaps` what it is missing. */
    method LiftCooldowns(now: int) returns (snaps: seq<Key>)
      modifies this`keys
      ensures keys == AllReenabled(old(keys), now)
      ensures forall k :: k in snaps ==> k in keys
      ensures forall x :: 0 <= x < |keys| ==> keys[x] in snaps || keys[x] == old(keys)[x]
    {
      snaps := [];
      ghost var goal := AllReenabled(keys, now);
      var i := 0;
      while i < |keys|
        invariant 0 <= i <= |keys| == |old(keys)|
        invariant forall x :: 0 <= x < i ==> keys[x] == goal[x] && (keys[x] in snaps || keys[x] == old(keys)[x])
        invariant forall x :: i <= x < |keys| ==> keys[x] == old(keys)[x]
        invariant forall k :: k in snaps ==> k in goal
      {
        var k := keys[i];
        if k.flag.disabled && k.flag.at.At? && now - k.flag.at.t > COOLDOWN {
          k := k.(flag := k.flag.(disabled := false));
          assert k == goal[i];
          keys := keys[i := k];
          snaps := snaps + [k];
        }
        i := i + 1;
      }
      assert keys == goal;
    }

    method WriteSnapshots(snaps: seq<Key>)
      requires DistinctNames(keys) && forall k :: k in snaps ==> k in keys
      requires forall x :: 0 <= x < |keys| ==> keys[x] in snaps || Stored(keys[x])
      modifies this`store
      ensures Valid()
    {
      for i := 0 to |snaps|
        invariant forall x :: 0 <= x < |keys| ==> keys[x] in snaps[i..] || Stored(keys[x])
      {
        assert snaps[i..] == [snaps[i]] + snaps[i + 1..];
        assert snaps[i] in keys;
        store := store[snaps[i].name := SaveOf(snaps[i])];
      }
    }

    method AddCredits(x: nat, c: real)
      requires Valid() && x < |keys|
      modifies this`keys, this`store
      ensures Valid() && |keys| == |old(keys)| && forall y :: 0 <= y < |keys| && y != x ==> keys[y] == old(keys)[y]
      ensures keys[x].credits == old(keys)[x].credits + c && keys[x].requests == old(keys)[x].requests + 1
      ensures keys[x].flag == if keys[x].credits >= 240.0 then Flag(true, Zero) else old(keys)[x].flag
    {
      var k := keys[x].(credits := keys[x].credits + c, requests := keys[x].requests + 1);
      if k.credits >= CREDIT_LIMIT {
        k := k.(flag := Flag(true, Zero));
      }
      SetKey(x, k);
    }

    method CleanupDisabled() returns (removed: nat)
      requires Valid()
      modifies this`keys, this`store
      ensures Valid() && keys == Kept(old(keys)) && removed + |keys| == |old(keys)|
      ensures forall x :: 0 <= x < |keys| ==> !ClassOf(keys[x].flag).Permanent?
    {
      removed := 0;
      var kept := [];
      var i := 0;
      while i < |keys|
        invariant 0 <= i <= |keys| && keys == old(keys) && kept == Kept(keys[..i]) && removed + |kept| == i
        invariant forall x :: 0 <= x < |keys| && (i <= x || !ClassOf(keys[x].flag).Permanent?) ==> Stored(keys[x])
      {
        assert keys[..i + 1][..i] == keys[..i];
        if keys[i].flag.disabled && keys[i].flag.at.Zero? {
          removed := removed + 1;
          store := store - {keys[i].name};
        } else {
          kept := kept + [keys[i]];
        }
        i := i + 1;
      }
      assert keys[..i] == keys;
      KeptAre(keys);
      KeptDistinct(keys);
      forall x | 0 <= x < |kept|
        ensures Stored(kept[x]) && !ClassOf(kept[x].flag).Permanent?
      {
        assert kept[x] in keys;
      }
      keys := kept;
    }

    /** The attempt loop of a request. */
    method ProxyCodeBuddy(w: World) returns (tried: seq<nat>, outcome: Outcome)
      requires Valid()
      modifies this
      ensures Valid()
      ensures Result(keys, next, tried, outcome) == Attempts(old(keys), old(next), [], 0, |old(keys)|, w)
    {
      var total := |keys|;
      tried, outcome := [], AllDisabled503;
      var attempt := 0;
      ghost var goal := Attempts(keys, next, [], 0, total, w);
      while attempt < total
        invariant 0 <= attempt <= total == |keys| && Valid() && outcome == AllDisabled503
        invariant goal == Attempts(keys, next, tried, attempt, total, w)
      {
        if w.cancelled(attempt) {
          outcome := Cancelled;
          return;
        }
        var p := Next();
        if p.None? {
          break;
        }
        var x := p.value;
        tried := tried + [x];
        var reaction := React(w.answer(attempt));
        match reaction {
          case Retry =>
          case Disable(v) =>
            SetKey(x, keys[x].(flag := Punished(v, w.clock(attempt))));
          case RejectParams =>
            outcome := Rejected400;
            return;
          case RejectModel =>
            outcome := Rejected400;
            return;
          case Serve =>
            outcome := Served(x);
            return;
        }
        attempt := attempt + 1;
      }
    }
  }
}
