/** The circuit breaker in front of one upstream. */
module Breaker {
  import opened Prelude

  const OPEN_THRESHOLD: nat := 5
  const OPEN_DURATION: int := 60_000_000_000
  const HALF_OPEN_PROBES: nat := 1

  datatype Circuit = Closed | Open | HalfOpen

  datatype Health = Health(state: Circuit, errs: nat, openedAt: int, probes: nat)

  const HEALTHY: Health := Health(Closed, 0, 0, 0)

  // ----- Steps -----

  /** What happens to the breaker: a request asks, a request reports, an active check reports.
      A check on an empty pool counts as an error, one on a fully disabled pool as nothing. */
  datatype Event = Ask | Success | Failure | CheckOk | CheckFailed | CheckSkipped

  /** One mutex-guarded section at a time. */
  datatype Step = Step(now: int, ev: Event)

  function Fail(h: Health, now: int): Health
  {
    var h1 := h.(errs := h.errs + 1);
    if h1.errs >= OPEN_THRESHOLD && h1.state.Closed? then h1.(state := Open, openedAt := now) else h1
  }

  predicate Admits(h: Health, now: int)
  {
    match h.state
    case Closed => true
    case Open => now - h.openedAt >= OPEN_DURATION
    case HalfOpen => h.probes < HALF_OPEN_PROBES
  }

  function Asked(h: Health, now: int): Health
  {
    match h.state
    case Closed => h
    case Open => if now - h.openedAt >= OPEN_DURATION then h.(state := HalfOpen, probes := 0) else h
    case HalfOpen => if h.probes < HALF_OPEN_PROBES then h.(probes := h.probes + 1) else h
  }

  /** A successful check closes without resetting the probe counter. */
  function Succeed(h: Health, check: bool): Health
  {
    match h.state
    case HalfOpen => h.(state := Closed, errs := 0, probes := if check then h.probes else 0)
    case Closed => h.(errs := 0)
    case Open => h
  }

  function Apply(h: Health, s: Step): Health
  {
    match s.ev
    case Ask => Asked(h, s.now)
    case Success => Succeed(h, false)
    case CheckOk => Succeed(h, true)
    case Failure => Fail(h, s.now)
    case CheckFailed => Fail(h, s.now)
    case CheckSkipped => h
  }

  /** Whether the step let a request through. */
  predicate Admitted(h: Health, s: Step) {
    s.ev.Ask? && Admits(h, s.now)
  }

  predicate IsSuccess(s: Step) {
    s.ev.Success? || s.ev.CheckOk?
  }

  predicate IsError(s: Step) {
    s.ev.Failure? || s.ev.CheckFailed?
  }

  // ----- The breaker as the program runs it -----

  predicate HealthStatusOK(code: int) {
    200 <= code < 400
  }

  class UpstreamHealth {
    var state: Circuit
    var consecutiveErrs: nat
    var openedAt: int
    var halfOpenProbes: nat

    function View(): Health
      reads this
    {
      Health(state, consecutiveErrs, openedAt, halfOpenProbes)
    }

    constructor ()
      ensures View() == HEALTHY
    {
      state, consecutiveErrs, openedAt, halfOpenProbes := Closed, 0, 0, 0;
    }

    method CountError(now: int)
      modifies this
      ensures View() == Fail(old(View()), now)
    {
      consecutiveErrs := consecutiveErrs + 1;
      if consecutiveErrs >= OPEN_THRESHOLD && state == Closed {
        state := Open;
        openedAt := now;
      }
    }

    method RecordRequest(failed: bool, now: int)
      modifies this
      ensures View() == Apply(old(View()), Step(now, if failed then Failure else Success))
    {
      if failed {
        CountError(now);
      } else if state == HalfOpen {
        state := Closed;
        consecutiveErrs := 0;
        halfOpenProbes := 0;
      } else if state == Closed {
        consecutiveErrs := 0;
      }
    }

    method CanRequest(now: int) returns (ok: bool)
      modifies this
      ensures ok == Admits(old(View()), now)
      ensures View() == Apply(old(View()), Step(now, Ask))
    {
      match state {
        case Closed =>
          ok := true;
        case Open =>
          if now - openedAt >= OPEN_DURATION {
            state := HalfOpen;
            halfOpenProbes := 0;
            ok := true;
          } else {
            ok := false;
          }
        case HalfOpen =>
          if halfOpenProbes < HALF_OPEN_PROBES {
            halfOpenProbes := halfOpenProbes + 1;
            ok := true;
          } else {
            ok := false;
          }
      }
    }

    /** The active check: pool size, whether some member is enabled, and the probe's status, 0 for a network error. */
    method Check(poolSize: nat, someEnabled: bool, status: int, now: int)
      modifies this
      ensures View() == Apply(old(View()), Step(now, CheckEvent(poolSize, someEnabled, status)))
      ensures poolSize > 0 && !someEnabled ==> View() == old(View())
      ensures poolSize == 0 || (someEnabled && !(200 <= status < 400)) ==> View() == Apply(old(View()), Step(now, CheckFailed))
      ensures poolSize > 0 && someEnabled && 200 <= status < 400 ==> View() == Apply(old(View()), Step(now, CheckOk))
    {
      if poolSize == 0 {
        CountError(now);
      } else if someEnabled {
        if HealthStatusOK(status) {
          if state == HalfOpen {
            state := Closed;
            consecutiveErrs := 0;
          } else if state == Closed {
            consecutiveErrs := 0;
          }
        } else {
          CountError(now);
        }
      }
    }
  }

  function CheckEvent(poolSize: nat, someEnabled: bool, status: int): Event
  {
    if poolSize == 0 then CheckFailed
    else if !someEnabled then CheckSkipped
    else if HealthStatusOK(status) then CheckOk
    else CheckFailed
  }

  // ----- Whole runs, any interleaving -----

  function Run(h: Health, steps: seq<Step>): Health
  {
    if steps == [] then h else Apply(Run(h, steps[..|steps| - 1]), steps[|steps| - 1])
  }

  /** The state before step `i`. */
  function At(steps: seq<Step>, i: nat): Health
    requires i <= |steps|
  {
    Run(HEALTHY, steps[..i])
  }

  ghost predicate Timed(steps: seq<Step>) {
    forall i, j :: 0 <= i < j < |steps| ==> steps[i].now <= steps[j].now
  }

  /** Errors since the last success of any kind. */
  function Unbroken(steps: seq<Step>): nat
  {
    if steps == [] then 0
    else
      var last := steps[|steps| - 1];
      var before := Unbroken(steps[..|steps| - 1]);
      if IsSuccess(last) then 0 else if IsError(last) then before + 1 else before
  }

  lemma AtNext(steps: seq<Step>, i: nat)
    requires i < |steps|
    ensures At(steps, i + 1) == Apply(At(steps, i), steps[i])
    ensures Unbroken(steps[..i + 1]) == if IsSuccess(steps[i]) then 0
                                        else if IsError(steps[i]) then Unbroken(steps[..i]) + 1
                                        else Unbroken(steps[..i])
  {
    assert steps[..i + 1][..i] == steps[..i];
  }

  /** While closed, the counter is below the threshold and counts the errors since the last success. */
  lemma {:induction false} ClosedCountsErrors(steps: seq<Step>, i: nat)
    requires i <= |steps|
    ensures At(steps, i).state.Closed? ==> At(steps, i).errs == Unbroken(steps[..i]) < OPEN_THRESHOLD
  {
    if i > 0 {
      ClosedCountsErrors(steps, i - 1);
      AtNext(steps, i - 1);
    }
  }

  /** The circuit moves only from closed to open, from open to half-open, from half-open to closed; it
      opens exactly at the fifth error in a row, and closes only on a success. */
  lemma OnlyCycles(steps: seq<Step>, i: nat)
    requires i < |steps|
    ensures var a := At(steps, i).state; var b := At(steps, i + 1).state;
            && (a == b || (a == Closed && b == Open) || (a == Open && b == HalfOpen) || (a == HalfOpen && b == Closed))
            && (a == Closed && b == Open <==> a == Closed && IsError(steps[i]) && Unbroken(steps[..i + 1]) == OPEN_THRESHOLD)
            && (a == HalfOpen && b == Closed <==> a == HalfOpen && IsSuccess(steps[i]))
            && (a == Open && b == HalfOpen <==> a == Open && Admitted(At(steps, i), steps[i]))
  {
    ClosedCountsErrors(steps, i);
    AtNext(steps, i);
  }

  /** Until the open period is over the circuit stays open. */
  lemma {:induction false} StaysOpen(steps: seq<Step>, o: nat, j: nat)
    requires Timed(steps) && o < j <= |steps|
    requires At(steps, o).state.Closed? && At(steps, o + 1).state.Open?
    requires forall k :: o < k < j ==> steps[k].now < steps[o].now + OPEN_DURATION
    ensures At(steps, j).state.Open? && At(steps, j).openedAt == steps[o].now
    decreases j
  {
    AtNext(steps, j - 1);
    if o + 1 < j {
      StaysOpen(steps, o, j - 1);
    }
  }

  /** After an opening nothing is admitted for 60 seconds. */
  lemma QuietAfterOpening(steps: seq<Step>, o: nat, j: nat)
    requires Timed(steps) && o < j < |steps|
    requires At(steps, o).state.Closed? && At(steps, o + 1).state.Open?
    requires Admitted(At(steps, j), steps[j])
    ensures steps[j].now >= steps[o].now + OPEN_DURATION
  {
    if steps[j].now < steps[o].now + OPEN_DURATION {
      forall k | o < k < j
        ensures steps[k].now < steps[o].now + OPEN_DURATION
      {
        assert steps[k].now <= steps[j].now;
      }
      StaysOpen(steps, o, j);
    }
  }

  /** Requests admitted by the steps from `i` up to `j`. */
  function AdmittedIn(steps: seq<Step>, i: nat, j: nat): nat
    requires i <= j <= |steps|
    decreases j - i
  {
    if i == j then 0
    else AdmittedIn(steps, i, j - 1) + (if Admitted(At(steps, j - 1), steps[j - 1]) then 1 else 0)
  }

  /** A stretch without success from the step that left the open state: still half-open, and at most
      one probe besides the request that caused the flip. */
  lemma {:induction false} HalfOpenEpisode(steps: seq<Step>, f: nat, j: nat)
    requires f < j <= |steps|
    requires At(steps, f).state.Open? && At(steps, f + 1).state.HalfOpen?
    requires forall k :: f < k < j ==> !IsSuccess(steps[k])
    ensures At(steps, j).state.HalfOpen? && At(steps, j).probes <= HALF_OPEN_PROBES
    ensures AdmittedIn(steps, f, j) == 1 + At(steps, j).probes
    decreases j
  {
    AtNext(steps, j - 1);
    if f + 1 < j {
      HalfOpenEpisode(steps, f, j - 1);
    } else {
      assert AdmittedIn(steps, f, f) == 0;
    }
  }

  /** Each half-open episode admits at most the probes plus the flipping request, and it lasts until the
      first success: without one the circuit neither closes nor reopens, whatever errors come. */
  lemma HalfOpenIsBounded(steps: seq<Step>, f: nat, j: nat)
    requires f < j <= |steps|
    requires At(steps, f).state.Open? && At(steps, f + 1).state.HalfOpen?
    requires forall k :: f < k < j ==> At(steps, k).state.HalfOpen?
    ensures AdmittedIn(steps, f, j) <= HALF_OPEN_PROBES + 1
    ensures !At(steps, j).state.HalfOpen? ==> At(steps, j).state.Closed? && IsSuccess(steps[j - 1])
  {
    forall k | f < k < j - 1
      ensures !IsSuccess(steps[k])
    {
      OnlyCycles(steps, k);
      assert At(steps, k + 1).state.HalfOpen?;
    }
    OnlyCycles(steps, j - 1);
    if j - 1 > f {
      HalfOpenEpisode(steps, f, j - 1);
      AtNext(steps, j - 1);
    } else {
      HalfOpenEpisode(steps, f, j);
    }
  }

  /** A half-open circuit whose probe was used admits nothing more until a success is reported, however
      long it takes: errors do not send it back to open, so no new half-open episode begins. */
  lemma {:induction false} UsedProbeBlocks(h: Health, steps: seq<Step>)
    requires h.state.HalfOpen? && h.probes >= HALF_OPEN_PROBES
    requires forall k :: 0 <= k < |steps| ==> !IsSuccess(steps[k])
    ensures Run(h, steps).state.HalfOpen? && Run(h, steps).probes >= HALF_OPEN_PROBES
    ensures forall t :: !Admits(Run(h, steps), t)
  {
    if steps != [] {
      UsedProbeBlocks(h, steps[..|steps| - 1]);
    }
  }

  // ----- Every answer, from the history alone -----

  /** Where a history stands: nothing wrong, waiting since the opening at `since`, or trying again, with the
      one probe still to come or used. */
  datatype Stand = Fine | Waiting(since: int) | Trying(probed: bool)

  function StandAfter(steps: seq<Step>): Stand
  {
    if steps == [] then Fine
    else
      var last := Last(steps);
      match StandAfter(Init(steps))
      case Fine => if IsError(last) && Unbroken(steps) >= 5 then Waiting(last.now) else Fine
      case Waiting(since) => if last.ev == Ask && last.now - since >= 60_000_000_000 then Trying(false) else Waiting(since)
      case Trying(probed) => if IsSuccess(last) then Fine else Trying(probed || last.ev == Ask)
  }

  ghost predicate Matches(h: Health, steps: seq<Step>)
  {
    match StandAfter(steps)
    case Fine => h.state == Closed && h.errs == Unbroken(steps)
    case Waiting(since) => h.state == Open && h.openedAt == since
    case Trying(probed) => h.state == HalfOpen && h.probes == (if probed then 1 else 0)
  }

  lemma {:induction false} RunMatches(steps: seq<Step>)
    ensures Matches(Run(HEALTHY, steps), steps)
    ensures StandAfter(steps).Fine? ==> Unbroken(steps) < 5
  {
    if steps != [] {
      RunMatches(Init(steps));
      assert Run(HEALTHY, steps) == Apply(Run(HEALTHY, Init(steps)), Last(steps));
    }
  }

  /** The answer to every question, over any run: yes while nothing is wrong; after an opening, yes from
      60 seconds on; then yes for one more request, and for all again after a success. */
  lemma AnswersFromHistory(steps: seq<Step>, now: int)
    ensures Admits(Run(HEALTHY, steps), now) <==>
              match StandAfter(steps)
              case Fine => true
              case Waiting(since) => now - since >= 60_000_000_000
              case Trying(probed) => !probed
  {
    RunMatches(steps);
  }

  lemma {:induction false} FineWhileUnbroken(steps: seq<Step>)
    requires forall i :: 0 <= i <= |steps| ==> Unbroken(steps[..i]) < 5
    ensures StandAfter(steps) == Fine
  {
    assert steps[..|steps|] == steps;
    if steps != [] {
      forall i | 0 <= i <= |Init(steps)|
        ensures Unbroken(Init(steps)[..i]) < 5
      {
        assert Init(steps)[..i] == steps[..i];
      }
      FineWhileUnbroken(Init(steps));
    }
  }

  /** As long as fewer than five failures come in a row, every request is let through. */
  lemma HealthyAdmitsAll(steps: seq<Step>, now: int)
    requires forall i :: 0 <= i <= |steps| ==> Unbroken(steps[..i]) < 5
    ensures Admits(Run(HEALTHY, steps), now)
  {
    FineWhileUnbroken(steps);
    AnswersFromHistory(steps, now);
  }

  /** The fifth failure in a row closes the door for 60 seconds, whatever happens meanwhile. */
  lemma {:induction false} WaitsAfterOpening(steps: seq<Step>, more: seq<Step>, now: int)
    requires StandAfter(steps).Fine? && more != [] && IsError(more[0]) && Unbroken(steps) == 4
    requires forall k :: 1 <= k < |more| && more[k].ev == Ask ==> more[k].now - more[0].now < 60_000_000_000
    ensures Admits(Run(HEALTHY, steps + more), now) <==> now - more[0].now >= 60_000_000_000
  {
    StillWaiting(steps, more);
    AnswersFromHistory(steps + more, now);
  }

  lemma {:induction false} StillWaiting(steps: seq<Step>, more: seq<Step>)
    requires StandAfter(steps).Fine? && more != [] && IsError(more[0]) && Unbroken(steps) == 4
    requires forall k :: 1 <= k < |more| && more[k].ev == Ask ==> more[k].now - more[0].now < 60_000_000_000
    ensures StandAfter(steps + more) == Waiting(more[0].now)
  {
    InitOfConcat(steps, more);
    if |more| > 1 {
      StillWaiting(steps, Init(more));
    } else {
      assert steps + Init(more) == steps;
    }
  }
}
