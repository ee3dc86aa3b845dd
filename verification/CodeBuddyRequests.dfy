/** How a CodeBuddy request ends and what it does to the keys, read off the upstream's answers. */
module CodeBuddyRequests {
  import opened Prelude
  import opened Lifecycle
  import opened CodeBuddy
  import Rotation

  // ----- Answers -----

  /** An answer below 400 is served. */
  predicate Passes(a: Answer) {
    a.Reply? && a.status < 400
  }

  /** A 400 that is the client's fault is passed on. */
  predicate Rejects(a: Answer) {
    a.Reply? && a.status == 400 && !a.body.exhausted && (a.body.badParams || a.body.noModel)
  }

  /** The key is bad for good. */
  predicate Kills(a: Answer)
  {
    a.Reply? &&
    (|| a.status == 401
     || (a.status == 429 && a.body.trialInactive)
     || (a.status == 403 && a.body.banned)
     || (400 <= a.status < 500 && a.status != 429 && a.body.exhausted))
  }

  /** The key needs a pause. */
  predicate Cools(a: Answer) {
    a.Reply? && 400 <= a.status < 500 && !Kills(a) && !Rejects(a)
  }

  /** The request goes on to the next key. */
  predicate Fails(a: Answer) {
    a.NetworkError? || (a.status >= 400 && !Rejects(a))
  }

  lemma ReactReads(a: Answer)
    ensures React(a).Serve? <==> Passes(a)
    ensures React(a).RejectParams? || React(a).RejectModel? <==> Rejects(a)
    ensures React(a) == Disable(Forever) <==> Kills(a)
    ensures React(a) == Disable(ForNow) <==> Cools(a)
    ensures Fails(a) <==> !Passes(a) && !Rejects(a)
  {
  }

  /** The keys after an answer to key `x`. */
  function Marked(keys: seq<Key>, x: nat, a: Answer, now: int): (r: seq<Key>)
    requires x < |keys|
    ensures |r| == |keys|
  {
    if Kills(a) then Disabled(keys, x, Forever, now) else if Cools(a) then Disabled(keys, x, ForNow, now) else keys
  }

  /** One attempt: the loop goes on exactly when its answer fails. */
  lemma OneAttempt(keys: seq<Key>, next: nat, tried: seq<nat>, total: nat, w: World)
    requires |tried| < total && !w.cancelled(|tried|) && Rotation.Pick(Enabled(keys), next).Some?
    ensures var r := Attempts(keys, next, tried, |tried|, total, w); var a := w.answer(|tried|);
            var x := Rotation.Pick(Enabled(keys), next).value; var next' := Rotation.Next(x, |keys|);
            if Fails(a)
            then r == Attempts(Marked(keys, x, a, w.clock(|tried|)), next', tried + [x], |tried| + 1, total, w)
            else r == CodeBuddy.Result(keys, next', tried + [x], if Passes(a) then Served(x) else Rejected400)
  {
    ReactReads(w.answer(|tried|));
  }

  // ----- Outcomes -----

  /** How a request that tried `tried` ended, by its answers. */
  ghost predicate Told(r: CodeBuddy.Result, total: nat, w: World)
  {
    var n := |r.tried|;
    var failed := n == 0 || Fails(w.answer(n - 1));
    && (forall j :: 0 <= j < n - 1 ==> Fails(w.answer(j)))
    && (r.outcome.Served? <==> n > 0 && Passes(w.answer(n - 1)))
    && (r.outcome.Served? ==> r.outcome.x == r.tried[n - 1])
    && (r.outcome.Rejected400? <==> n > 0 && Rejects(w.answer(n - 1)))
    && (r.outcome.Cancelled? <==> failed && n < total && w.cancelled(n))
    && (r.outcome.AllDisabled503? <==>
          failed && (n >= total || (!w.cancelled(n) && forall x :: 0 <= x < |r.keys| ==> r.keys[x].flag.disabled)))
  }

  lemma {:induction false} AttemptsTold(keys: seq<Key>, next: nat, tried: seq<nat>, total: nat, w: World)
    requires |tried| <= total && forall j :: 0 <= j < |tried| ==> Fails(w.answer(j))
    ensures Told(Attempts(keys, next, tried, |tried|, total, w), total, w)
    decreases total - |tried|
  {
    var a := |tried|;
    if a < total && !w.cancelled(a) {
      Rotation.PickFailsIffNone(Enabled(keys), next);
      var p := Rotation.Pick(Enabled(keys), next);
      if p.Some? {
        var x := p.value;
        OneAttempt(keys, next, tried, total, w);
        ReactReads(w.answer(a));
        if Fails(w.answer(a)) {
          AttemptsTold(Marked(keys, x, w.answer(a), w.clock(a)), Rotation.Next(x, |keys|), tried + [x], total, w);
        }
      } else {
        assert forall x :: 0 <= x < |keys| ==> keys[x].flag.disabled == !Enabled(keys)[x];
      }
    }
  }

  /** How a request ends: served by the last key tried if and only if its answer is below 400; rejected if
      and only if it is the client's fault; every answer before was a network error or a status of at
      least 400; cancelled, or 503 with every attempt made or no key left, if and only if all failed. */
  lemma RequestEnds(keys: seq<Key>, next: nat, w: World)
    ensures Told(Attempts(keys, next, [], 0, |keys|, w), |keys|, w)
  {
    AttemptsTold(keys, next, [], |keys|, w);
  }

  // ----- Flags -----

  /** The flag of key `x` after the attempts made, attempt j being answered by `w.answer(j)`. */
  function FlagAfter(flag: Flag, tried: seq<nat>, w: World, x: nat): Flag
  {
    if tried == [] then flag
    else
      var j := |tried| - 1;
      var before := FlagAfter(flag, tried[..j], w, x);
      if tried[j] != x then before
      else if Kills(w.answer(j)) then Flag(true, Zero)
      else if Cools(w.answer(j)) then Flag(true, At(w.clock(j)))
      else before
  }

  ghost predicate Reflects(was: seq<Key>, keys: seq<Key>, tried: seq<nat>, w: World)
  {
    && |keys| == |was|
    && forall x :: 0 <= x < |keys| ==> keys[x] == was[x].(flag := FlagAfter(was[x].flag, tried, w, x))
  }

  lemma AttemptReflects(was: seq<Key>, keys: seq<Key>, tried: seq<nat>, x: nat, w: World)
    requires Reflects(was, keys, tried, w) && x < |keys|
    ensures var a := w.answer(|tried|); var now := w.clock(|tried|);
            Reflects(was, Marked(keys, x, a, now), tried + [x], w)
  {
    assert (tried + [x])[..|tried|] == tried;
  }

  lemma {:induction false} AttemptsReflect(was: seq<Key>, keys: seq<Key>, next: nat, tried: seq<nat>, total: nat, w: World)
    requires Reflects(was, keys, tried, w)
    ensures var r := Attempts(keys, next, tried, |tried|, total, w); Reflects(was, r.keys, r.tried, w)
    decreases total - |tried|
  {
    var a := |tried|;
    if a < total && !w.cancelled(a) {
      var p := Rotation.Pick(Enabled(keys), next);
      if p.Some? {
        var x := p.value;
        OneAttempt(keys, next, tried, total, w);
        AttemptReflects(was, keys, tried, x, w);
        if Fails(w.answer(a)) {
          AttemptsReflect(was, Marked(keys, x, w.answer(a), w.clock(a)), Rotation.Next(x, |keys|), tried + [x], total, w);
        }
      }
    }
  }

  /** What a request does to the keys: everything but the flags stays, and each flag is as its answers say. */
  lemma RequestMarks(keys: seq<Key>, next: nat, w: World)
    ensures var r := Attempts(keys, next, [], 0, |keys|, w); Reflects(keys, r.keys, r.tried, w)
  {
    AttemptsReflect(keys, keys, next, [], |keys|, w);
  }

  lemma {:induction false} LaterTriesLeave(flag: Flag, tried: seq<nat>, w: World, j: nat)
    requires j < |tried| && forall i :: j < i < |tried| ==> tried[i] != tried[j]
    ensures FlagAfter(flag, tried, w, tried[j]) == FlagAfter(flag, tried[..j + 1], w, tried[j])
  {
    if j + 1 < |tried| {
      var n := |tried| - 1;
      LaterTriesLeave(flag, tried[..n], w, j);
      assert tried[..n][..j + 1] == tried[..j + 1];
    } else {
      assert tried[..j + 1] == tried;
    }
  }

  /** The last try of a key decides, when it disables: permanently exactly after a 401, a 429 of an inactive
      trial, a banned 403 or an exhausted 4xx other than 429; otherwise, after any other 4xx that is not
      passed on, in cooldown from that attempt on. */
  lemma LastTryDecides(keys: seq<Key>, next: nat, w: World, j: nat)
    requires var r := Attempts(keys, next, [], 0, |keys|, w);
             j < |r.tried| && r.tried[j] < |r.keys| && forall i :: j < i < |r.tried| ==> r.tried[i] != r.tried[j]
    ensures var r := Attempts(keys, next, [], 0, |keys|, w); var flag := r.keys[r.tried[j]].flag; var a := w.answer(j);
            && (Kills(a) ==> flag == Flag(true, Zero))
            && (Cools(a) ==> flag == Flag(true, At(w.clock(j))))
  {
    var r := Attempts(keys, next, [], 0, |keys|, w);
    RequestMarks(keys, next, w);
    var x := r.tried[j];
    LaterTriesLeave(keys[x].flag, r.tried, w, j);
    assert r.tried[..j + 1][..j] == r.tried[..j];
  }

  /** Answers that neither kill nor cool leave the flag of every key as it was. */
  lemma {:induction false} OtherAnswersLeave(flag: Flag, tried: seq<nat>, w: World, x: nat)
    requires forall j :: 0 <= j < |tried| && tried[j] == x ==> !Kills(w.answer(j)) && !Cools(w.answer(j))
    ensures FlagAfter(flag, tried, w, x) == flag
  {
    if tried != [] {
      OtherAnswersLeave(flag, tried[..|tried| - 1], w, x);
    }
  }

  lemma QuietKeysKeepTheirFlag(keys: seq<Key>, next: nat, w: World, x: nat)
    requires x < |keys|
    requires var r := Attempts(keys, next, [], 0, |keys|, w);
             forall j :: 0 <= j < |r.tried| && r.tried[j] == x ==> !Kills(w.answer(j)) && !Cools(w.answer(j))
    ensures var r := Attempts(keys, next, [], 0, |keys|, w); x < |r.keys| && r.keys[x] == keys[x]
  {
    RequestMarks(keys, next, w);
    OtherAnswersLeave(keys[x].flag, Attempts(keys, next, [], 0, |keys|, w).tried, w, x);
  }

  // ----- No key is tried again once disabled -----

  lemma {:induction false} DisabledAfter(flag: Flag, tried: seq<nat>, w: World, j: nat)
    requires j < |tried| && (Kills(w.answer(j)) || Cools(w.answer(j)))
    ensures FlagAfter(flag, tried, w, tried[j]).disabled
  {
    if j < |tried| - 1 {
      DisabledAfter(flag, tried[..|tried| - 1], w, j);
    }
  }

  ghost predicate NoneAgain(tried: seq<nat>, w: World) {
    forall i, j :: 0 <= i < j < |tried| && (Kills(w.answer(i)) || Cools(w.answer(i))) ==> tried[j] != tried[i]
  }

  /** The next pick is none of the keys that were disabled. */
  lemma PickIsNew(was: seq<Key>, keys: seq<Key>, tried: seq<nat>, x: nat, w: World)
    requires Reflects(was, keys, tried, w) && NoneAgain(tried, w) && x < |keys| && !keys[x].flag.disabled
    ensures NoneAgain(tried + [x], w)
  {
    forall i | 0 <= i < |tried| && (Kills(w.answer(i)) || Cools(w.answer(i)))
      ensures x != tried[i]
    {
      DisabledAfter(was[x].flag, tried, w, i);
    }
  }

  lemma {:induction false} AttemptsNoneAgain(was: seq<Key>, keys: seq<Key>, next: nat, tried: seq<nat>, total: nat, w: World)
    requires Reflects(was, keys, tried, w) && NoneAgain(tried, w)
    ensures NoneAgain(Attempts(keys, next, tried, |tried|, total, w).tried, w)
    decreases total - |tried|
  {
    var a := |tried|;
    if a < total && !w.cancelled(a) {
      var p := Rotation.Pick(Enabled(keys), next);
      if p.Some? {
        var x := p.value;
        OneAttempt(keys, next, tried, total, w);
        PickIsNew(was, keys, tried, x, w);
        AttemptReflects(was, keys, tried, x, w);
        if Fails(w.answer(a)) {
          AttemptsNoneAgain(was, Marked(keys, x, w.answer(a), w.clock(a)), Rotation.Next(x, |keys|), tried + [x], total, w);
        }
      }
    }
  }

  /** A key is never tried again after an answer that disabled it, and its flag at the end says which one it was. */
  lemma DisablingAnswersStay(keys: seq<Key>, next: nat, w: World, j: nat)
    requires j < |Attempts(keys, next, [], 0, |keys|, w).tried| && (Kills(w.answer(j)) || Cools(w.answer(j)))
    ensures var r := Attempts(keys, next, [], 0, |keys|, w);
            && r.tried[j] < |r.keys|
            && r.keys[r.tried[j]].flag == Flag(true, if Kills(w.answer(j)) then Zero else At(w.clock(j)))
  {
    var r := Attempts(keys, next, [], 0, |keys|, w);
    AttemptsNoneAgain(keys, keys, next, [], |keys|, w);
    AttemptsTouchOnlyTried(keys, keys, next, [], 0, |keys|, w);
    assert r.tried[j] in r.tried;
    LastTryDecides(keys, next, w, j);
  }
}
