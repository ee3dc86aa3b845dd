/** The asynchronous request log: producers, a bounded queue, and one consumer that batches. */
module LogPipeline {
  const QUEUE_SIZE: nat := 10000
  const BATCH_SIZE: nat := 200

  /** `accepted` and `dropped` are what the producers handed in; `flushed` is what the log store got. */
  datatype Pipe<E> = Pipe(
    accepted: seq<E>, dropped: seq<E>,
    queue: seq<E>, batch: seq<E>, flushed: seq<seq<E>>,
    closing: bool, stopped: bool)

  function Fresh<E>(): Pipe<E> {
    Pipe([], [], [], [], [], false, false)
  }

  /** One step of any participant; the consumer's select takes any ready case. */
  datatype Step<E> =
    | Produce(e: E)  // LogRequest, never blocking
    | Take           // the consumer receives an entry
    | Tick           // the flush interval elapsed
    | Close          // Close() closes the done channel
    | Stop           // the consumer sees the closed channel and returns

  predicate Ready<E>(p: Pipe<E>, s: Step<E>)
  {
    match s
    case Produce(_) => true
    case Take => !p.stopped && p.queue != []
    case Tick => !p.stopped
    case Close => !p.closing
    case Stop => !p.stopped && p.closing
  }

  function Flush<E>(p: Pipe<E>): Pipe<E>
  {
    if p.batch == [] then p else p.(batch := [], flushed := p.flushed + [p.batch])
  }

  function Apply<E>(p: Pipe<E>, s: Step<E>): Pipe<E>
    requires Ready(p, s)
  {
    match s
    case Produce(e) =>
      if |p.queue| < QUEUE_SIZE then p.(accepted := p.accepted + [e], queue := p.queue + [e])
      else p.(dropped := p.dropped + [e])
    case Take =>
      var p1 := p.(batch := p.batch + [p.queue[0]], queue := p.queue[1..]);
      if |p1.batch| >= BATCH_SIZE then Flush(p1) else p1
    case Tick => Flush(p)
    case Close => p.(closing := true)
    case Stop => Flush(p).(stopped := true)
  }

  // ----- The store as the program runs it -----

  class Store<E> {
    var reqLogCh: seq<E>
    var batch: seq<E>
    var flushed: seq<seq<E>>
    var done: bool
    var returned: bool
    ghost var accepted: seq<E>
    ghost var dropped: seq<E>

    ghost function View(): Pipe<E>
      reads this
    {
      Pipe(accepted, dropped, reqLogCh, batch, flushed, done, returned)
    }

    constructor ()
      ensures View() == Fresh()
    {
      reqLogCh, batch, flushed, done, returned := [], [], [], false, false;
      accepted, dropped := [], [];
    }

    method LogRequest(e: E)
      modifies this`reqLogCh, this`accepted, this`dropped
      ensures View() == Apply(old(View()), Produce(e))
    {
      if |reqLogCh| < QUEUE_SIZE {
        reqLogCh := reqLogCh + [e];
        accepted := accepted + [e];
      } else {
        dropped := dropped + [e];
      }
    }

    method FlushBatch()
      modifies this`batch, this`flushed
      ensures View() == Flush(old(View()))
    {
      if |batch| != 0 {
        flushed := flushed + [batch];
        batch := [];
      }
    }

    /** One pass of the consumer's select; `pick` is the case the runtime chose among the ready ones. */
    method ConsumeOnce(pick: Step<E>)
      requires !pick.Produce? && !pick.Close? && Ready(View(), pick)
      modifies this`reqLogCh, this`batch, this`flushed, this`returned
      ensures View() == Apply(old(View()), pick)
    {
      match pick {
        case Take =>
          batch := batch + [reqLogCh[0]];
          reqLogCh := reqLogCh[1..];
          if |batch| >= BATCH_SIZE {
            FlushBatch();
          }
        case Tick =>
          FlushBatch();
        case Stop =>
          FlushBatch();
          returned := true;
      }
    }
  }

  // ----- Any interleaving -----

  ghost predicate Possible<E>(p: Pipe<E>, steps: seq<Step<E>>)
    decreases |steps|
  {
    steps == [] || (Ready(p, steps[0]) && Possible(Apply(p, steps[0]), steps[1..]))
  }

  function Run<E>(p: Pipe<E>, steps: seq<Step<E>>): Pipe<E>
    requires Possible(p, steps)
    decreases |steps|
  {
    if steps == [] then p else Run(Apply(p, steps[0]), steps[1..])
  }

  function Concat<E>(bs: seq<seq<E>>): seq<E>
  {
    if bs == [] then [] else Concat(bs[..|bs| - 1]) + bs[|bs| - 1]
  }

  /** In order: what was flushed, then the batch, then the queue, is what was accepted. */
  ghost predicate Conserved<E>(p: Pipe<E>)
  {
    && p.accepted == Concat(p.flushed) + p.batch + p.queue
    && |p.queue| <= QUEUE_SIZE && |p.batch| < BATCH_SIZE
    && (forall i :: 0 <= i < |p.flushed| ==> 1 <= |p.flushed[i]| <= BATCH_SIZE)
    && (p.stopped ==> p.closing && p.batch == [])
  }

  lemma FlushConserves<E>(p: Pipe<E>)
    requires p.accepted == Concat(p.flushed) + p.batch + p.queue && |p.batch| <= BATCH_SIZE
    ensures var q := Flush(p);
            q.accepted == Concat(q.flushed) + q.batch + q.queue && q.batch == []
  {
    if p.batch != [] {
      assert (p.flushed + [p.batch])[..|p.flushed|] == p.flushed;
      assert Concat(p.flushed) + p.batch + [] + p.queue == Concat(p.flushed) + p.batch + p.queue;
    }
  }

  lemma TakeConserves<E>(p: Pipe<E>)
    requires Conserved(p) && Ready(p, Take)
    ensures Conserved(Apply(p, Take)) && p.flushed <= Apply(p, Take).flushed
  {
    var p1 := p.(batch := p.batch + [p.queue[0]], queue := p.queue[1..]);
    assert p.queue == [p.queue[0]] + p.queue[1..];
    assert Concat(p1.flushed) + p1.batch + p1.queue == Concat(p.flushed) + p.batch + p.queue;
    FlushConserves(p1);
  }

  lemma StepConserves<E>(p: Pipe<E>, s: Step<E>)
    requires Conserved(p) && Ready(p, s)
    ensures Conserved(Apply(p, s))
    ensures p.flushed <= Apply(p, s).flushed && (p.stopped ==> Apply(p, s).flushed == p.flushed && Apply(p, s).stopped)
  {
    match s {
      case Produce(e) =>
        assert Concat(p.flushed) + p.batch + (p.queue + [e]) == (Concat(p.flushed) + p.batch + p.queue) + [e];
      case Take =>
        TakeConserves(p);
      case Tick =>
        FlushConserves(p);
      case Close =>
      case Stop =>
        FlushConserves(p);
    }
  }

  /** After every step of any interleaving the accepted entries are, in order, the flushed batches, the
      current batch and the queue; every flush hands over 1 to 200 entries. */
  lemma {:induction false} RunConserves<E>(p: Pipe<E>, steps: seq<Step<E>>)
    requires Conserved(p) && Possible(p, steps)
    ensures Conserved(Run(p, steps))
    ensures p.flushed <= Run(p, steps).flushed
    ensures p.stopped ==> Run(p, steps).stopped && Run(p, steps).flushed == p.flushed
    decreases |steps|
  {
    if steps != [] {
      StepConserves(p, steps[0]);
      RunConserves(Apply(p, steps[0]), steps[1..]);
    }
  }

  /** An entry is dropped exactly when it meets a full queue. */
  lemma DropsOnlyWhenFull<E>(p: Pipe<E>, s: Step<E>)
    requires Conserved(p) && Ready(p, s)
    ensures Apply(p, s).dropped != p.dropped <==> s.Produce? && |p.queue| == QUEUE_SIZE
  {
    if s.Produce? && |p.queue| == QUEUE_SIZE {
      assert |Apply(p, s).dropped| == |p.dropped| + 1;
    }
  }

  /** Once the consumer has returned, what was accepted but is never flushed, however the run goes on, is
      exactly the queue: nothing drains it. */
  lemma NeverFlushedIsTheQueue<E>(steps: seq<Step<E>>, more: seq<Step<E>>)
    requires Possible(Fresh<E>(), steps) && Run(Fresh<E>(), steps).stopped
    requires Possible(Run(Fresh<E>(), steps), more)
    ensures var p := Run(Fresh<E>(), steps); var q := Run(p, more);
            q.flushed == p.flushed && q.accepted == Concat(p.flushed) + q.queue
  {
    var p := Run(Fresh<E>(), steps);
    RunConserves(Fresh<E>(), steps);
    RunConserves(p, more);
    var q := Run(p, more);
    assert Concat(q.flushed) + [] + q.queue == Concat(q.flushed) + q.queue;
  }

  /** A shutdown that loses an entry: accepted, not yet taken when the consumer stops. */
  lemma ShutdownLosesQueued<E>(e: E)
    ensures var steps := [Produce(e), Close, Stop];
            Possible(Fresh<E>(), steps) && Run(Fresh<E>(), steps).stopped
            && Run(Fresh<E>(), steps).queue == [e] && Run(Fresh<E>(), steps).flushed == []
  {
    var steps := [Produce(e), Close, Stop];
    var p1 := Apply(Fresh<E>(), Produce(e));
    var p2 := Apply(p1, Close);
    assert steps[1..] == [Close, Stop];
    assert [Step<E>.Close, Step<E>.Stop][1..] == [Stop];
    assert [Step<E>.Stop][1..] == [];
    assert Run(Apply(p2, Stop), []) == Apply(p2, Stop);
    assert Possible(p2, [Stop]) && Run(p2, [Stop]) == Apply(p2, Stop);
    assert Possible(p1, [Close, Stop]);
  }

  // ----- The numbers -----

  /** When entries are handed over: with the two-hundredth of a batch, on a tick or at the stop if there is
      anything; always the whole batch. */
  lemma FlushesWhen<E>(p: Pipe<E>, s: Step<E>)
    requires Conserved(p) && Ready(p, s)
    ensures var q := Apply(p, s);
            q.flushed == p.flushed +
              (if s.Take? && |p.batch| == 199 then [p.batch + [p.queue[0]]]
               else if (s.Tick? || s.Stop?) && p.batch != [] then [p.batch]
               else [])
    ensures s.Produce? ==>
              if |p.queue| < 10000 then Apply(p, s).queue == p.queue + [s.e] && Apply(p, s).dropped == p.dropped
              else Apply(p, s).queue == p.queue && Apply(p, s).dropped == p.dropped + [s.e]
  {
    assert p.flushed + [] == p.flushed;
  }

  lemma Sizes<E>(steps: seq<Step<E>>)
    requires Possible(Fresh<E>(), steps)
    ensures var p := Run(Fresh<E>(), steps);
            && |p.queue| <= 10000 && |p.batch| < 200
            && forall i :: 0 <= i < |p.flushed| ==> 1 <= |p.flushed[i]| <= 200
  {
    RunConserves(Fresh<E>(), steps);
  }
}
