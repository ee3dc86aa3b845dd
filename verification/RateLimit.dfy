/** The per-client token bucket and the cleanup of idle buckets. Times are in seconds. */
module RateLimit {
  import opened Prelude

  datatype Bucket = Bucket(tokens: real, last: real)

  const IDLE: real := 600.0

  // ----- One request on one bucket -----

  /** A rate in tokens per second and a burst; the program derives the rate as rpm / window. */
  datatype Limit = Limit(rate: real, burst: real)

  function Min(a: real, b: real): real {
    if a <= b then a else b
  }

  /** The tokens that flow in during a stretch of time. */
  function Refill(l: Limit, elapsed: real): real {
    elapsed * l.rate
  }

  lemma RefillGrows(l: Limit, a: real, b: real)
    requires l.rate >= 0.0 && a <= b
    ensures Refill(l, a) <= Refill(l, b)
    ensures a >= 0.0 ==> Refill(l, a) >= 0.0
  {
    var d := b - a;
    assert d * l.rate >= 0.0;
    assert Refill(l, b) == Refill(l, a) + d * l.rate;
    assert a >= 0.0 ==> a * l.rate >= 0.0;
  }

  lemma RefillAdds(l: Limit, a: real, b: real, c: real)
    ensures Refill(l, b - a) + Refill(l, c - b) == Refill(l, c - a)
    ensures Refill(l, a - a) == 0.0
  {
  }

  /** The tokens a request finds at time `now`. */
  function Available(b: Option<Bucket>, l: Limit, now: real): real
  {
    if b.None? then l.burst else Min(b.value.tokens + Refill(l, now - b.value.last), l.burst)
  }

  predicate Allowed(b: Option<Bucket>, l: Limit, now: real)
  {
    b.None? || Available(b, l, now) >= 1.0
  }

  function After(b: Option<Bucket>, l: Limit, now: real): Bucket
  {
    Bucket(Available(b, l, now) - (if Allowed(b, l, now) then 1.0 else 0.0), now)
  }

  // ----- The limiter as the program runs it -----

  /** The effective limit of a call; a non-positive burst means the rpm. */
  function LimitOf(rpm: int, burst: int, window: real): Limit
    requires window > 0.0
  {
    Limit(rpm as real / window, if burst <= 0 then rpm as real else burst as real)
  }

  function Lookup(clients: map<string, Bucket>, id: string): Option<Bucket>
  {
    if id in clients then Some(clients[id]) else None
  }

  /** Buckets untouched for longer than ten minutes are dropped. */
  function Swept(clients: map<string, Bucket>, now: real): map<string, Bucket>
  {
    map id | id in clients && clients[id].last >= now - IDLE :: clients[id]
  }

  class Limiter {
    const window: real
    var clients: map<string, Bucket>

    constructor (window: real)
      requires window > 0.0
      ensures this.window == window && clients == map[]
    {
      this.window := window;
      clients := map[];
    }

    method AllowWithLimit(id: string, rpm: int, burst: int, now: real) returns (ok: bool)
      requires window > 0.0
      modifies this`clients
      ensures rpm <= 0 ==> ok && clients == old(clients)
      ensures rpm > 0 ==>
                var l := LimitOf(rpm, burst, window); var b := Lookup(old(clients), id);
                ok == Allowed(b, l, now) && clients == old(clients)[id := After(b, l, now)]
    {
      if rpm <= 0 {
        return true;
      }
      var b := if burst <= 0 then rpm else burst;
      if id !in clients {
        clients := clients[id := Bucket(b as real - 1.0, now)];
        return true;
      }
      var bucket := clients[id];
      var tokens := bucket.tokens + Refill(LimitOf(rpm, burst, window), now - bucket.last);
      if tokens > b as real {
        tokens := b as real;
      }
      ok := tokens >= 1.0;
      if ok {
        tokens := tokens - 1.0;
      }
      clients := clients[id := Bucket(tokens, now)];
    }

    method Cleanup(now: real)
      modifies this`clients
      ensures clients == Swept(old(clients), now)
    {
      var rest := clients.Keys;
      while rest != {}
        invariant rest <= old(clients.Keys)
        invariant clients == map id | id in old(clients) && (id in rest || old(clients)[id].last >= now - IDLE) :: old(clients)[id]
        decreases rest
      {
        ghost var some := AnElement(rest);
        var id :| id in rest;
        if clients[id].last < now - IDLE {
          clients := clients - {id};
        }
        rest := rest - {id};
      }
    }
  }

  // ----- The rate bound -----

  /** The bucket of one client after requests at the given times, with no removal. */
  function BucketAfter(l: Limit, times: seq<real>, b: Option<Bucket>): Option<Bucket>
  {
    if times == [] then b
    else
      var n := |times| - 1;
      Some(After(BucketAfter(l, times[..n], b), l, times[n]))
  }

  predicate AdmittedAt(l: Limit, times: seq<real>, b: Option<Bucket>, i: nat)
    requires i < |times|
  {
    Allowed(BucketAfter(l, times[..i], b), l, times[i])
  }

  /** How many of the requests from `i` up to `j` were admitted. */
  function Admitted(l: Limit, times: seq<real>, b: Option<Bucket>, i: nat, j: nat): nat
    requires i <= j <= |times|
    decreases j - i
  {
    if i == j then 0 else Admitted(l, times, b, i, j - 1) + (if AdmittedAt(l, times, b, j - 1) then 1 else 0)
  }

  ghost predicate Sorted(times: seq<real>) {
    forall i, j :: 0 <= i < j < |times| ==> times[i] <= times[j]
  }

  /** A bucket that has been used holds between 0 and burst tokens and was used no later than `now`. */
  predicate Sound(l: Limit, b: Option<Bucket>, now: real) {
    b.Some? ==> 0.0 <= b.value.tokens <= l.burst && b.value.last <= now
  }

  lemma AfterStep(l: Limit, times: seq<real>, b: Option<Bucket>, i: nat)
    requires i < |times|
    ensures BucketAfter(l, times[..i + 1], b) == Some(After(BucketAfter(l, times[..i], b), l, times[i]))
  {
    assert times[..i + 1][..i] == times[..i];
  }

  /** One request: what it spends and leaves is covered by what was there plus the refill, and by the burst. */
  lemma RequestStep(l: Limit, b: Option<Bucket>, now: real)
    requires l.rate >= 0.0 && l.burst >= 1.0 && Sound(l, b, now)
    ensures var a := After(b, l, now); var spent := if Allowed(b, l, now) then 1.0 else 0.0;
            && 0.0 <= a.tokens <= l.burst && a.last == now
            && a.tokens + spent <= l.burst
            && (b.Some? ==> a.tokens + spent <= b.value.tokens + Refill(l, now - b.value.last))
  {
    if b.Some? {
      RefillGrows(l, 0.0, now - b.value.last);
    }
  }

  lemma {:induction false} StaysSound(l: Limit, times: seq<real>, b: Option<Bucket>, i: nat)
    requires l.rate >= 0.0 && l.burst >= 1.0 && Sorted(times) && i < |times| && Sound(l, b, times[0])
    ensures Sound(l, BucketAfter(l, times[..i], b), times[i])
    ensures i > 0 ==> BucketAfter(l, times[..i], b).Some? && BucketAfter(l, times[..i], b).value.last == times[i - 1]
  {
    if i > 0 {
      StaysSound(l, times, b, i - 1);
      AfterStep(l, times, b, i - 1);
      RequestStep(l, BucketAfter(l, times[..i - 1], b), times[i - 1]);
      assert times[i - 1] <= times[i];
    } else {
      assert times[..0] == [];
    }
  }

  /** The bucket a request meets and the one it leaves. */
  lemma RequestAt(l: Limit, times: seq<real>, b: Option<Bucket>, j: nat)
    requires l.rate >= 0.0 && l.burst >= 1.0 && Sorted(times) && j < |times| && Sound(l, b, times[0])
    ensures var before := BucketAfter(l, times[..j], b); var after := BucketAfter(l, times[..j + 1], b);
            var spent := if AdmittedAt(l, times, b, j) then 1.0 else 0.0;
            && after.Some? && 0.0 <= after.value.tokens && after.value.tokens + spent <= l.burst
            && (j > 0 ==> before.Some?)
            && (j > 0 ==> after.value.tokens + spent <= before.value.tokens + Refill(l, times[j] - times[j - 1]))
  {
    StaysSound(l, times, b, j);
    AfterStep(l, times, b, j);
    RequestStep(l, BucketAfter(l, times[..j], b), times[j]);
  }

  /** Tokens spent between two requests come from the burst and from the refill in between. */
  lemma {:induction false} Spending(l: Limit, times: seq<real>, b: Option<Bucket>, i: nat, j: nat)
    requires l.rate >= 0.0 && l.burst >= 1.0 && Sorted(times) && i < j <= |times| && Sound(l, b, times[0])
    ensures BucketAfter(l, times[..j], b).Some? && BucketAfter(l, times[..j], b).value.tokens >= 0.0
    ensures Admitted(l, times, b, i, j) as real + BucketAfter(l, times[..j], b).value.tokens
         <= l.burst + Refill(l, times[j - 1] - times[i])
    decreases j - i
  {
    RequestAt(l, times, b, j - 1);
    if i == j - 1 {
      assert Admitted(l, times, b, i, i) == 0;
      RefillAdds(l, times[i], times[i], times[i]);
    } else {
      Spending(l, times, b, i, j - 1);
      RefillAdds(l, times[i], times[j - 2], times[j - 1]);
    }
  }

  /** The token bucket bound: in any stretch of time, at most burst plus rate times its length. */
  lemma RateBound(l: Limit, times: seq<real>, b: Option<Bucket>, i: nat, j: nat, length: real)
    requires l.rate >= 0.0 && l.burst >= 1.0 && Sorted(times) && i < j <= |times| && Sound(l, b, times[0])
    requires times[j - 1] - times[i] <= length
    ensures Admitted(l, times, b, i, j) as real <= l.burst + Refill(l, length)
  {
    Spending(l, times, b, i, j);
    RefillGrows(l, times[j - 1] - times[i], length);
  }

  /** Requests far enough apart for one token each are never refused. */
  lemma SlowClientsPass(l: Limit, times: seq<real>, b: Option<Bucket>, i: nat)
    requires l.rate > 0.0 && l.burst >= 1.0 && Sorted(times) && i < |times| && Sound(l, b, times[0])
    requires i == 0 ==> b.None? || Refill(l, times[0] - b.value.last) >= 1.0
    requires i > 0 ==> Refill(l, times[i] - times[i - 1]) >= 1.0
    ensures AdmittedAt(l, times, b, i)
  {
    StaysSound(l, times, b, i);
    var before := BucketAfter(l, times[..i], b);
    if i == 0 {
      assert times[..0] == [];
    }
    if before.Some? {
      assert Refill(l, times[i] - before.value.last) >= 1.0;
    }
  }

  /** The spacing in the program's units. */
  lemma SpacingInUnits(rpm: int, burst: int, window: real, gap: real)
    requires rpm > 0 && window > 0.0 && gap >= window / (rpm as real)
    ensures Refill(LimitOf(rpm, burst, window), gap) >= 1.0
    ensures LimitOf(rpm, burst, window).rate > 0.0 && LimitOf(rpm, burst, window).burst >= 1.0
  {
    var l := LimitOf(rpm, burst, window);
    var r := rpm as real;
    assert l.rate > 0.0;
    assert (window / r) * (r / window) == 1.0;
    RefillGrows(l, window / r, gap);
  }

  // ----- Exactly the excess is refused -----

  /** The tokens request `j` finds. */
  function Found(l: Limit, times: seq<real>, j: nat): real
    requires j < |times|
  {
    Available(BucketAfter(l, times[..j], None), l, times[j])
  }

  /** Admitting request `j` on top of those admitted since request `i` stays within burst and refill. */
  predicate Fits(l: Limit, times: seq<real>, i: nat, j: nat)
    requires i <= j < |times|
  {
    Admitted(l, times, None, i, j) as real + 1.0 <= l.burst + (times[j] - times[i]) * l.rate
  }

  lemma FoundStep(l: Limit, times: seq<real>, j: nat)
    requires 0 < j < |times|
    ensures Found(l, times, j) ==
            Min(Found(l, times, j - 1) - (if AdmittedAt(l, times, None, j - 1) then 1.0 else 0.0)
                + Refill(l, times[j] - times[j - 1]), l.burst)
  {
    AfterStep(l, times, None, j - 1);
  }

  /** What request `j` finds is the tightest of these budgets; `i` is a stretch that attains it. */
  lemma {:induction false} FoundIsTightest(l: Limit, times: seq<real>, j: nat) returns (i: nat)
    requires l.rate >= 0.0 && l.burst >= 1.0 && Sorted(times) && j < |times|
    ensures i <= j && Found(l, times, j) + Admitted(l, times, None, i, j) as real == l.burst + Refill(l, times[j] - times[i])
    ensures forall k :: 0 <= k <= j ==>
              Found(l, times, j) + Admitted(l, times, None, k, j) as real <= l.burst + Refill(l, times[j] - times[k])
  {
    RefillAdds(l, times[j], times[j], times[j]);
    if j == 0 {
      i := 0;
      assert times[..0] == [];
    } else {
      i := FoundIsTightest(l, times, j - 1);
      FoundStep(l, times, j);
      forall k | 0 <= k < j
        ensures Found(l, times, j) + Admitted(l, times, None, k, j) as real <= l.burst + Refill(l, times[j] - times[k])
      {
        RefillAdds(l, times[k], times[j - 1], times[j]);
      }
      if Found(l, times, j) == l.burst {
        i := j;
      } else {
        RefillAdds(l, times[i], times[j - 1], times[j]);
      }
    }
  }

  /** A request is let through if and only if that keeps every stretch that ends with it within burst plus
      rate times its length: the limiter refuses the excess and nothing else. */
  lemma AdmittedIff(l: Limit, times: seq<real>, j: nat)
    requires l.rate >= 0.0 && l.burst >= 1.0 && Sorted(times) && j < |times|
    ensures AdmittedAt(l, times, None, j) <==> forall i :: 0 <= i <= j ==> Fits(l, times, i, j)
  {
    var i := FoundIsTightest(l, times, j);
    assert Fits(l, times, i, j) <==> Found(l, times, j) >= 1.0;
    if j == 0 {
      assert times[..0] == [];
    } else {
      StaysSound(l, times, None, j);
    }
  }

  /** The limit in the program's terms: rpm per window, and the burst, or rpm for a burst that is not positive. */
  lemma LimitMeans(rpm: int, burst: int, window: real)
    requires rpm > 0 && window > 0.0
    ensures var l := LimitOf(rpm, burst, window);
            && l.rate * window == rpm as real
            && l.burst == (if burst > 0 then burst as real else rpm as real)
            && l.rate > 0.0 && l.burst >= 1.0
  {
  }

  // ----- Cleanup is unobservable -----

  /** A request of a client, or a cleanup. */
  datatype Event = Request(id: string, limit: Limit, at: real) | Cleanup(at: real)

  type Clients = map<string, Bucket>

  function Step(c: Clients, e: Event, sweeping: bool): Clients
  {
    match e
    case Request(id, l, at) => c[id := After(Lookup(c, id), l, at)]
    case Cleanup(at) => if sweeping then Swept(c, at) else c
  }

  /** The answers of a run; a cleanup answers nothing. */
  function Answers(c: Clients, events: seq<Event>, sweeping: bool): seq<bool>
    decreases |events|
  {
    if events == [] then []
    else
      var e := events[0];
      (if e.Request? then [Allowed(Lookup(c, e.id), e.limit, e.at)] else [])
      + Answers(Step(c, e, sweeping), events[1..], sweeping)
  }

  /** Times do not go back, and no burst exceeds what ten minutes refill. */
  ghost predicate Fitting(events: seq<Event>, now: real)
    decreases |events|
  {
    events == [] ||
    (events[0].at >= now
     && (events[0].Request? ==> events[0].limit.rate >= 0.0 && 1.0 <= events[0].limit.burst <= Refill(events[0].limit, IDLE))
     && Fitting(events[1..], events[0].at))
  }

  /** The sweeping limiter has lost only buckets that are idle for more than ten minutes. */
  ghost predicate Simulates(swept: Clients, full: Clients, now: real)
  {
    && (forall id :: id in swept ==> id in full && full[id] == swept[id])
    && (forall id :: id in full ==> full[id].tokens >= 0.0 && full[id].last <= now)
    && (forall id :: id in full && id !in swept ==> full[id].last < now - IDLE)
  }

  /** A bucket idle for ten minutes is as good as a new one. */
  lemma IdleIsFull(b: Bucket, l: Limit, now: real)
    requires l.rate >= 0.0 && l.burst <= Refill(l, IDLE) && b.tokens >= 0.0 && b.last < now - IDLE
    requires l.burst >= 1.0
    ensures Available(Some(b), l, now) == l.burst && Allowed(Some(b), l, now)
  {
    RefillGrows(l, IDLE, now - b.last);
  }

  /** Both limiters leave the same bucket behind after a request. */
  lemma SameBucket(swept: Clients, full: Clients, now: real, id: string, l: Limit, at: real)
    requires Simulates(swept, full, now) && at >= now
    requires l.rate >= 0.0 && 1.0 <= l.burst <= Refill(l, IDLE)
    ensures Allowed(Lookup(swept, id), l, at) == Allowed(Lookup(full, id), l, at)
    ensures After(Lookup(swept, id), l, at) == After(Lookup(full, id), l, at)
    ensures After(Lookup(full, id), l, at).tokens >= 0.0
  {
    if id in full {
      var b := full[id];
      RefillGrows(l, 0.0, at - b.last);
      if id !in swept {
        IdleIsFull(b, l, at);
      }
    }
  }

  lemma StepSimulates(swept: Clients, full: Clients, now: real, e: Event)
    requires Simulates(swept, full, now) && e.at >= now
    requires e.Request? ==> e.limit.rate >= 0.0 && 1.0 <= e.limit.burst <= Refill(e.limit, IDLE)
    ensures Simulates(Step(swept, e, true), Step(full, e, false), e.at)
    ensures e.Request? ==> Allowed(Lookup(swept, e.id), e.limit, e.at) == Allowed(Lookup(full, e.id), e.limit, e.at)
  {
    if e.Request? {
      SameBucket(swept, full, now, e.id, e.limit, e.at);
    }
  }

  lemma {:induction false} SameAnswers(swept: Clients, full: Clients, now: real, events: seq<Event>)
    requires Simulates(swept, full, now) && Fitting(events, now)
    ensures Answers(swept, events, true) == Answers(full, events, false)
    decreases |events|
  {
    if events != [] {
      StepSimulates(swept, full, now, events[0]);
      SameAnswers(Step(swept, events[0], true), Step(full, events[0], false), events[0].at, events[1..]);
    }
  }

  /** When no burst exceeds ten minutes of refill, sweeping at any moments changes no answer of any run. */
  lemma CleanupUnobservable(events: seq<Event>, start: real)
    requires Fitting(events, start)
    ensures Answers(map[], events, true) == Answers(map[], events, false)
  {
    SameAnswers(map[], map[], start, events);
  }

  // ----- Several clients -----

  function End(c: Clients, events: seq<Event>, sweeping: bool): Clients
    decreases |events|
  {
    if events == [] then c else End(Step(c, events[0], sweeping), events[1..], sweeping)
  }

  lemma {:induction false} AnswersConcat(c: Clients, a: seq<Event>, b: seq<Event>, sweeping: bool)
    ensures Answers(c, a + b, sweeping) == Answers(c, a, sweeping) + Answers(End(c, a, sweeping), b, sweeping)
    decreases |a|
  {
    if a == [] {
      assert a + b == b;
    } else {
      assert (a + b)[0] == a[0] && (a + b)[1..] == a[1..] + b;
      AnswersConcat(Step(c, a[0], sweeping), a[1..], b, sweeping);
    }
  }

  lemma {:induction false} EndConcat(c: Clients, a: seq<Event>, b: seq<Event>, sweeping: bool)
    ensures End(c, a + b, sweeping) == End(End(c, a, sweeping), b, sweeping)
    decreases |a|
  {
    if a == [] {
      assert a + b == b;
    } else {
      assert (a + b)[0] == a[0] && (a + b)[1..] == a[1..] + b;
      EndConcat(Step(c, a[0], sweeping), a[1..], b, sweeping);
    }
  }

  /** When one client sent its requests. */
  function TimesOf(events: seq<Event>, id: string): seq<real>
  {
    if events == [] then []
    else
      var last := events[|events| - 1];
      TimesOf(events[..|events| - 1], id) + (if last.Request? && last.id == id then [last.at] else [])
  }

  /** Without sweeping, a client's bucket depends on its own requests only. */
  lemma {:induction false} ClientsAreIndependent(c: Clients, events: seq<Event>, id: string, l: Limit)
    requires forall i :: 0 <= i < |events| && events[i].Request? && events[i].id == id ==> events[i].limit == l
    ensures Lookup(End(c, events, false), id) == BucketAfter(l, TimesOf(events, id), Lookup(c, id))
  {
    if events != [] {
      var n := |events| - 1;
      var front, last := events[..n], events[n];
      ClientsAreIndependent(c, front, id, l);
      assert events == front + [last];
      EndConcat(c, front, [last], false);
      assert [last][1..] == [];
      if last.Request? && last.id == id {
        var ts := TimesOf(events, id);
        assert ts[..|ts| - 1] == TimesOf(front, id);
      } else {
        assert TimesOf(events, id) == TimesOf(front, id);
        assert Lookup(Step(End(c, front, false), last, false), id) == Lookup(End(c, front, false), id);
      }
    }
  }

  // ----- The rate bound over a whole run -----

  /** Event `p` is a request of the client, and it is let through. */
  predicate Passes(events: seq<Event>, id: string, p: nat, sweeping: bool)
    requires p < |events|
  {
    var e := events[p];
    e.Request? && e.id == id && Allowed(Lookup(End(map[], events[..p], sweeping), id), e.limit, e.at)
  }

  /** How many requests of the client the limiter lets through from event `i` up to event `j`. */
  function PassedOf(events: seq<Event>, id: string, i: nat, j: nat, sweeping: bool): nat
    requires i <= j <= |events|
    decreases j
  {
    if i == j then 0
    else PassedOf(events, id, i, j - 1, sweeping) + (if Passes(events, id, j - 1, sweeping) then 1 else 0)
  }

  /** It is what the limiter answers. */
  lemma PassesIsAnswer(events: seq<Event>, p: nat, sweeping: bool)
    requires p < |events| && events[p].Request?
    ensures Answers(map[], events[..p + 1], sweeping)
         == Answers(map[], events[..p], sweeping) + [Passes(events, events[p].id, p, sweeping)]
  {
    assert events[..p + 1] == events[..p] + [events[p]];
    AnswersConcat(map[], events[..p], [events[p]], sweeping);
    assert [events[p]][1..] == [];
  }

  ghost predicate Ordered(events: seq<Event>) {
    forall p, q :: 0 <= p < q < |events| ==> events[p].at <= events[q].at
  }

  lemma {:induction false} TimesInOrder(events: seq<Event>, id: string)
    requires Ordered(events)
    ensures Sorted(TimesOf(events, id))
    ensures forall k :: 0 <= k < |TimesOf(events, id)| ==> TimesOf(events, id)[k] <= events[|events| - 1].at
  {
    if events != [] {
      TimesInOrder(Init(events), id);
    }
  }

  lemma {:induction false} TimesBetween(events: seq<Event>, id: string, i: nat, j: nat)
    requires Ordered(events) && i < |events| && i <= j <= |events|
    ensures var ts := TimesOf(events[..j], id); var a := |TimesOf(events[..i], id)|;
            a <= |ts| && forall k :: a <= k < |ts| ==> ts[k] >= events[i].at
    decreases j
  {
    if i < j {
      TimesBetween(events, id, i, j - 1);
      assert Init(events[..j]) == events[..j - 1];
    }
  }

  /** Later requests do not change what was admitted. */
  lemma {:induction false} AdmittedBefore(l: Limit, times: seq<real>, t: real, i: nat, j: nat)
    requires i <= j <= |times|
    ensures Admitted(l, times + [t], None, i, j) == Admitted(l, times, None, i, j)
    decreases j
  {
    if i < j {
      AdmittedBefore(l, times, t, i, j - 1);
      assert (times + [t])[..j - 1] == times[..j - 1];
    }
  }

  ghost predicate OneLimit(events: seq<Event>, id: string, l: Limit) {
    forall p :: 0 <= p < |events| && events[p].Request? && events[p].id == id ==> events[p].limit == l
  }

  /** The client's own request meets the client's own bucket. */
  lemma OwnRequest(events: seq<Event>, id: string, l: Limit, p: nat)
    requires OneLimit(events, id, l) && p < |events| && events[p].Request? && events[p].id == id
    ensures var ts := TimesOf(events[..p], id); var ts' := TimesOf(events[..p + 1], id);
            && ts' == ts + [events[p].at]
            && Passes(events, id, p, false) == AdmittedAt(l, ts', None, |ts|)
  {
    var ts := TimesOf(events[..p], id);
    assert Init(events[..p + 1]) == events[..p] && Last(events[..p + 1]) == events[p];
    ClientsAreIndependent(map[], events[..p], id, l);
    assert (ts + [events[p].at])[..|ts|] == ts;
  }

  lemma OtherEvent(events: seq<Event>, id: string, p: nat)
    requires p < |events| && !(events[p].Request? && events[p].id == id)
    ensures TimesOf(events[..p + 1], id) == TimesOf(events[..p], id) && !Passes(events, id, p, false)
  {
    assert Init(events[..p + 1]) == events[..p] && Last(events[..p + 1]) == events[p];
  }

  lemma OneMoreAdmitted(l: Limit, ts: seq<real>, t: real, a: nat)
    requires a <= |ts|
    ensures Admitted(l, ts + [t], None, a, |ts| + 1)
         == Admitted(l, ts, None, a, |ts|) + (if AdmittedAt(l, ts + [t], None, |ts|) then 1 else 0)
  {
    AdmittedBefore(l, ts, t, a, |ts|);
  }

  /** The requests of the client at times `ts`, the first `a` of them before event `i`. */
  ghost predicate Counted(events: seq<Event>, id: string, l: Limit, i: nat, j: nat, ts: seq<real>, a: nat)
    requires i <= j <= |events|
  {
    a <= |ts| && PassedOf(events, id, i, j, false) == Admitted(l, ts, None, a, |ts|)
  }

  lemma CountedStep(events: seq<Event>, id: string, l: Limit, i: nat, j: nat, ts: seq<real>, ts': seq<real>, a: nat)
    requires i <= j < |events| && Counted(events, id, l, i, j, ts, a)
    requires ts' == if events[j].Request? && events[j].id == id then ts + [events[j].at] else ts
    requires Passes(events, id, j, false) <==> ts' != ts && AdmittedAt(l, ts', None, |ts|)
    ensures Counted(events, id, l, i, j + 1, ts', a)
  {
    if events[j].Request? && events[j].id == id {
      OneMoreAdmitted(l, ts, events[j].at, a);
    }
  }

  /** Without sweeping the run admits what the client's own bucket admits. */
  lemma {:induction false} PassedIsAdmitted(events: seq<Event>, id: string, l: Limit, i: nat, j: nat)
    requires OneLimit(events, id, l) && i <= j <= |events|
    ensures Counted(events, id, l, i, j, TimesOf(events[..j], id), |TimesOf(events[..i], id)|)
    decreases j
  {
    if i < j {
      PassedIsAdmitted(events, id, l, i, j - 1);
      if events[j - 1].Request? && events[j - 1].id == id {
        OwnRequest(events, id, l, j - 1);
      } else {
        OtherEvent(events, id, j - 1);
      }
      CountedStep(events, id, l, i, j - 1, TimesOf(events[..j - 1], id), TimesOf(events[..j], id), |TimesOf(events[..i], id)|);
    }
  }

  lemma {:induction false} EndSimulates(swept: Clients, full: Clients, now: real, events: seq<Event>, p: nat)
    requires Simulates(swept, full, now) && Fitting(events, now) && p < |events| && events[p].Request?
    ensures Allowed(Lookup(End(swept, events[..p], true), events[p].id), events[p].limit, events[p].at)
         == Allowed(Lookup(End(full, events[..p], false), events[p].id), events[p].limit, events[p].at)
    decreases |events|
  {
    StepSimulates(swept, full, now, events[0]);
    if p > 0 {
      assert events[..p][0] == events[0] && events[..p][1..] == events[1..][..p - 1];
      EndSimulates(Step(swept, events[0], true), Step(full, events[0], false), events[0].at, events[1..], p - 1);
    }
  }

  lemma {:induction false} SweepingPasses(events: seq<Event>, start: real, id: string, i: nat, j: nat)
    requires Fitting(events, start) && i <= j <= |events|
    ensures PassedOf(events, id, i, j, true) == PassedOf(events, id, i, j, false)
    decreases j
  {
    if i < j {
      SweepingPasses(events, start, id, i, j - 1);
      if events[j - 1].Request? {
        EndSimulates(map[], map[], start, events, j - 1);
      }
    }
  }

  /** The token bucket bound for the limiter as a whole: whatever other clients do, in any stretch of any
      run at most burst plus rate times its length requests of a client are let through; with sweeping as
      well, when no burst exceeds ten minutes of refill. */
  lemma ClientRateBound(events: seq<Event>, id: string, l: Limit, i: nat, j: nat, length: real,
                        sweeping: bool, start: real)
    requires OneLimit(events, id, l) && l.rate >= 0.0 && l.burst >= 1.0 && Ordered(events)
    requires i < j <= |events| && events[j - 1].at - events[i].at <= length
    requires sweeping ==> Fitting(events, start)
    ensures PassedOf(events, id, i, j, sweeping) as real <= l.burst + Refill(l, length)
  {
    var ts := TimesOf(events[..j], id);
    var a := |TimesOf(events[..i], id)|;
    PassedIsAdmitted(events, id, l, i, j);
    if sweeping {
      SweepingPasses(events, start, id, i, j);
    }
    TimesInOrder(events[..j], id);
    TimesBetween(events, id, i, j);
    RefillGrows(l, 0.0, length);
    if a < |ts| {
      RateBound(l, ts, None, a, |ts|, length);
    }
  }

  // ----- And only then -----

  function Repeated(e: Event, n: nat): (es: seq<Event>)
    ensures |es| == n
  {
    if n == 0 then [] else [e] + Repeated(e, n - 1)
  }

  /** A used bucket with no time to refill offers what it holds. */
  lemma AtOnce(l: Limit, tokens: real, at: real)
    requires tokens <= l.burst
    ensures Available(Some(Bucket(tokens, at)), l, at) == tokens
  {
    RefillAdds(l, at, at, at);
  }

  /** `n` requests at one instant on at least `n` tokens all pass. */
  lemma {:induction false} AllPass(c: Clients, id: string, l: Limit, at: real, n: nat, sweeping: bool)
    requires Available(Lookup(c, id), l, at) >= n as real
    ensures var es := Repeated(Request(id, l, at), n);
            && (forall b :: b in Answers(c, es, sweeping) ==> b)
            && (n > 0 ==> End(c, es, sweeping) == c[id := Bucket(Available(Lookup(c, id), l, at) - n as real, at)])
    decreases n
  {
    if n > 0 {
      var e := Request(id, l, at);
      var es := Repeated(e, n);
      var have := Available(Lookup(c, id), l, at);
      var c1 := Step(c, e, sweeping);
      assert c1 == c[id := Bucket(have - 1.0, at)];
      assert es[0] == e && es[1..] == Repeated(e, n - 1);
      AtOnce(l, have - 1.0, at);
      AllPass(c1, id, l, at, n - 1, sweeping);
    }
  }

  /** `n` requests at one instant on fewer than `n` tokens do not all pass. */
  lemma {:induction false} SomeFail(c: Clients, id: string, l: Limit, at: real, n: nat)
    requires id in c && 0.0 <= Available(Lookup(c, id), l, at) < n as real
    ensures false in Answers(c, Repeated(Request(id, l, at), n), false)
    decreases n
  {
    var e := Request(id, l, at);
    var es := Repeated(e, n);
    var have := Available(Lookup(c, id), l, at);
    assert es[0] == e && es[1..] == Repeated(e, n - 1);
    if have >= 1.0 {
      var c1 := Step(c, e, false);
      AtOnce(l, have - 1.0, at);
      SomeFail(c1, id, l, at, n - 1);
    } else {
      assert Answers(c, es, false)[0] == false;
    }
  }

  /** A moment after the idle time at which the bucket is not yet full again. */
  function Moment(l: Limit): real
    requires l.rate > 0.0
  {
    IDLE + (l.burst - Refill(l, IDLE)) / l.rate / 2.0
  }

  lemma MomentIsEarly(l: Limit)
    requires l.rate > 0.0 && l.burst > Refill(l, IDLE)
    ensures Moment(l) > IDLE && 0.0 <= Refill(l, Moment(l)) < l.burst
  {
    var gap := l.burst - Refill(l, IDLE);
    var extra := gap / l.rate / 2.0;
    assert gap / l.rate > 0.0;
    assert extra * l.rate == gap / 2.0;
    assert Refill(l, Moment(l)) == Refill(l, IDLE) + extra * l.rate;
    RefillGrows(l, 0.0, Moment(l));
  }

  /** A full burst, a cleanup as soon as the bucket is idle, a full burst. */
  function TwoBursts(l: Limit, n: nat): seq<Event>
    requires l.rate > 0.0
  {
    Repeated(Request("a", l, 0.0), n) + ([Cleanup(Moment(l))] + Repeated(Request("a", l, Moment(l)), n))
  }

  lemma TwoBurstsDiffer(l: Limit, n: nat)
    requires l.rate > 0.0 && n >= 1 && l.burst == n as real && l.burst > Refill(l, IDLE)
    ensures Answers(map[], TwoBursts(l, n), true) != Answers(map[], TwoBursts(l, n), false)
  {
    var at := Moment(l);
    var first := Repeated(Request("a", l, 0.0), n);
    var second := Repeated(Request("a", l, at), n);
    var sweep := [Cleanup(at)];
    var drained := map["a" := Bucket(0.0, 0.0)];
    MomentIsEarly(l);
    AllPass(map[], "a", l, 0.0, n, true);
    AllPass(map[], "a", l, 0.0, n, false);
    assert End(map[], first, true) == drained && End(map[], first, false) == drained;
    AnswersConcat(map[], first, sweep + second, true);
    AnswersConcat(map[], first, sweep + second, false);
    AnswersConcat(drained, sweep, second, true);
    AnswersConcat(drained, sweep, second, false);
    assert sweep[1..] == [];
    assert End(drained, sweep, true) == Swept(drained, at) == map[];
    assert End(drained, sweep, false) == drained;
    AllPass(map[], "a", l, at, n, true);
    SomeFail(drained, "a", l, at, n);
    assert false in Answers(map[], TwoBursts(l, n), false);
    assert forall b :: b in Answers(map[], TwoBursts(l, n), true) ==> b;
  }

  /** Times do not go back and every request uses the same limit. */
  ghost predicate Uniform(events: seq<Event>, l: Limit, now: real)
    decreases |events|
  {
    events == [] ||
    (events[0].at >= now && (events[0].Request? ==> events[0].limit == l) && Uniform(events[1..], l, events[0].at))
  }

  lemma {:induction false} UniformFits(events: seq<Event>, l: Limit, now: real)
    requires Uniform(events, l, now) && l.rate > 0.0 && 1.0 <= l.burst <= Refill(l, IDLE)
    ensures Fitting(events, now)
    decreases |events|
  {
    if events != [] {
      UniformFits(events[1..], l, events[0].at);
    }
  }

  lemma {:induction false} RepeatedUniform(l: Limit, at: real, n: nat, more: seq<Event>, now: real)
    requires now <= at && Uniform(more, l, at)
    ensures Uniform(Repeated(Request("a", l, at), n) + more, l, now)
    decreases n
  {
    var e := Request("a", l, at);
    if n == 0 {
      assert Repeated(e, n) + more == more;
    } else {
      RepeatedUniform(l, at, n - 1, more, at);
      var es := Repeated(e, n) + more;
      assert es[0] == e && es[1..] == Repeated(e, n - 1) + more;
    }
  }

  ghost predicate Unobservable(l: Limit) {
    forall events :: Uniform(events, l, 0.0) ==> Answers(map[], events, true) == Answers(map[], events, false)
  }

  /** For one limit with a whole-number burst, sweeping is unobservable if and only if ten minutes
      refill the burst. */
  lemma UnobservableIff(l: Limit, n: nat)
    requires l.rate > 0.0 && n >= 1 && l.burst == n as real
    ensures Unobservable(l) <==> l.burst <= 600.0 * l.rate
  {
    if l.burst <= Refill(l, IDLE) {
      forall events | Uniform(events, l, 0.0)
        ensures Answers(map[], events, true) == Answers(map[], events, false)
      {
        UniformFits(events, l, 0.0);
        CleanupUnobservable(events, 0.0);
      }
    } else {
      var at := Moment(l);
      var second := Repeated(Request("a", l, at), n);
      MomentIsEarly(l);
      RepeatedUniform(l, at, n, [], at);
      assert second + [] == second;
      var tail := [Cleanup(at)] + second;
      assert tail[1..] == second;
      assert Uniform(tail, l, 0.0);
      RepeatedUniform(l, 0.0, n, tail, 0.0);
      TwoBurstsDiffer(l, n);
      assert Uniform(TwoBursts(l, n), l, 0.0);
    }
  }

  /** A sweep drops exactly the buckets untouched for more than ten minutes. */
  lemma SweptMeans(c: Clients, now: real, id: string)
    ensures id in Swept(c, now) <==> id in c && now - c[id].last <= 600.0
    ensures id in Swept(c, now) ==> Swept(c, now)[id] == c[id]
  {
  }
}
