/** When the emitted event stream is a well-formed Anthropic message. */
module Brackets {
  import opened Prelude
  import opened Sse
  import opened Stream

  // ----- What a well-bracketed event sequence is -----

  ghost predicate StartedBefore(evs: seq<Event>, n: nat, i: nat)
    requires n <= |evs|
  {
    exists p :: 0 <= p < n && evs[p].BlockStart? && evs[p].index == i
  }

  ghost predicate StoppedBefore(evs: seq<Event>, n: nat, i: nat)
    requires n <= |evs|
  {
    exists p :: 0 <= p < n && evs[p] == BlockStop(i)
  }

  ghost predicate EndedBefore(evs: seq<Event>, n: nat)
    requires n <= |evs|
  {
    exists p :: 0 <= p < n && evs[p].MessageDelta?
  }

  /** Whether the event at `j` is allowed after the events before it. */
  ghost predicate LegalAt(evs: seq<Event>, j: nat)
    requires j < |evs|
  {
    match evs[j]
    case MessageStart => j == 0
    case BlockStart(i, kind) =>
      j > 0 && !EndedBefore(evs, j) && !StartedBefore(evs, j, i) && (i == 0 <==> kind.Text?)
    case TextDelta(i, _) =>
      j > 0 && !EndedBefore(evs, j) && i == 0 && StartedBefore(evs, j, i) && !StoppedBefore(evs, j, i)
    case ArgsDelta(i, _) =>
      j > 0 && !EndedBefore(evs, j) && i != 0 && StartedBefore(evs, j, i) && !StoppedBefore(evs, j, i)
    case BlockStop(i) =>
      j > 0 && !EndedBefore(evs, j) && StartedBefore(evs, j, i)
      && forall p :: 0 <= p < j && evs[p].BlockStop? ==> evs[p].index < i
    case MessageDelta(_, _) =>
      j > 0 && !EndedBefore(evs, j) && forall i :: StartedBefore(evs, j, i) ==> StoppedBefore(evs, j, i)
    case MessageStop => j > 0 && evs[j - 1].MessageDelta?
  }

  /** message_start first and once; blocks started at most once, text at index 0 and tools elsewhere;
      deltas only inside their open block; stops in strictly ascending index order; all blocks stopped
      before the single message_delta; message_stop directly after it and last. */
  ghost predicate Bracketed(evs: seq<Event>)
  {
    evs != [] && Last(evs).MessageStop? && forall j :: 0 <= j < |evs| ==> LegalAt(evs, j)
  }

  /** In a bracketed stream a delta lies strictly between the start and the stop of its block. */
  lemma DeltaInsideBlock(evs: seq<Event>, j: nat)
    requires Bracketed(evs) && j < |evs| && (evs[j].TextDelta? || evs[j].ArgsDelta?)
    ensures exists p, q :: 0 <= p < j < q < |evs| && evs[p].BlockStart? && evs[p].index == evs[j].index
                           && evs[q] == BlockStop(evs[j].index)
  {
    assert LegalAt(evs, j);
    var i := evs[j].index;
    var p :| 0 <= p < j && evs[p].BlockStart? && evs[p].index == i;
    var d := |evs| - 2;
    assert LegalAt(evs, d + 1);
    assert LegalAt(evs, d);
    assert j < d;
    assert StartedBefore(evs, d, i);
    var q :| 0 <= q < d && evs[q] == BlockStop(i);
    assert q > j;
  }

  // ----- A recogniser for it -----

  datatype Phase = Before | Body | Closing | Closed

  datatype Verdict = Bad | Good(phase: Phase, seen: set<nat>, open: set<nat>, lastStop: int)

  function Judge1(v: Verdict, e: Event): Verdict
  {
    if v.Bad? then Bad
    else match v.phase
      case Before => if e.MessageStart? then v.(phase := Body) else Bad
      case Closing => if e.MessageStop? then v.(phase := Closed) else Bad
      case Closed => Bad
      case Body =>
        match e
        case BlockStart(i, kind) =>
          if i !in v.seen && (i == 0 <==> kind.Text?)
          then v.(seen := v.seen + {i}, open := v.open + {i}) else Bad
        case TextDelta(i, _) => if i in v.open && i == 0 then v else Bad
        case ArgsDelta(i, _) => if i in v.open && i != 0 then v else Bad
        case BlockStop(i) =>
          if i in v.open && i > v.lastStop then v.(open := v.open - {i}, lastStop := i) else Bad
        case MessageDelta(_, _) => if v.open == {} then v.(phase := Closing) else Bad
        case MessageStart => Bad
        case MessageStop => Bad
  }

  const EMPTY: Verdict := Good(Before, {}, {}, -1)

  function JudgeN(evs: seq<Event>, n: nat): Verdict
    requires n <= |evs|
  {
    if n == 0 then EMPTY else Judge1(JudgeN(evs, n - 1), evs[n - 1])
  }

  function Judge(evs: seq<Event>): Verdict {
    JudgeN(evs, |evs|)
  }

  lemma {:induction false} JudgePrefix(evs: seq<Event>, more: seq<Event>, n: nat)
    requires n <= |evs|
    ensures JudgeN(evs + more, n) == JudgeN(evs, n)
  {
    if n > 0 {
      JudgePrefix(evs, more, n - 1);
    }
  }

  lemma JudgeSnoc(evs: seq<Event>, e: Event)
    ensures Judge(evs + [e]) == Judge1(Judge(evs), e)
  {
    JudgePrefix(evs, [e], |evs|);
  }

  lemma {:induction false} BadStaysBad(evs: seq<Event>, n: nat, m: nat)
    requires n <= m <= |evs| && JudgeN(evs, n).Bad?
    ensures JudgeN(evs, m).Bad?
    decreases m
  {
    if n < m {
      BadStaysBad(evs, n, m - 1);
    }
  }

  /** What a good verdict remembers about the events read so far. */
  ghost predicate Remembers(evs: seq<Event>, n: nat, v: Verdict)
    requires n <= |evs|
  {
    && v.Good?
    && (v.phase.Before? <==> n == 0)
    && (v.phase.Closing? || v.phase.Closed? <==> EndedBefore(evs, n))
    && (v.phase.Closing? ==> n > 0 && evs[n - 1].MessageDelta?)
    && (v.phase.Closed? ==> n > 0 && evs[n - 1].MessageStop?)
    && (forall i: nat :: i in v.seen <==> StartedBefore(evs, n, i))
    && (forall i: nat :: i in v.open <==> StartedBefore(evs, n, i) && !StoppedBefore(evs, n, i))
    && (forall i: nat :: StoppedBefore(evs, n, i) ==> StartedBefore(evs, n, i))
    && (forall p :: 0 <= p < n && evs[p].BlockStop? ==> evs[p].index <= v.lastStop)
    && (v.lastStop != -1 ==> v.lastStop >= 0 && StoppedBefore(evs, n, v.lastStop))
    && v.lastStop >= -1
  }

  lemma BeforeStep(evs: seq<Event>, n: nat)
    requires n < |evs|
    ensures forall i: nat :: StartedBefore(evs, n + 1, i) <==>
              StartedBefore(evs, n, i) || (evs[n].BlockStart? && evs[n].index == i)
    ensures forall i: nat :: StoppedBefore(evs, n + 1, i) <==> StoppedBefore(evs, n, i) || evs[n] == BlockStop(i)
    ensures EndedBefore(evs, n + 1) <==> EndedBefore(evs, n) || evs[n].MessageDelta?
  {
    assert 0 <= n < n + 1;
    forall i: nat
      ensures StartedBefore(evs, n + 1, i) <==>
              StartedBefore(evs, n, i) || (evs[n].BlockStart? && evs[n].index == i)
      ensures StoppedBefore(evs, n + 1, i) <==> StoppedBefore(evs, n, i) || evs[n] == BlockStop(i)
    {
      assert evs[n].BlockStart? && evs[n].index == i ==> StartedBefore(evs, n + 1, i);
      assert evs[n] == BlockStop(i) ==> StoppedBefore(evs, n + 1, i);
    }
    assert evs[n].MessageDelta? ==> EndedBefore(evs, n + 1);
  }

  /** One event: the recogniser stays good exactly on a legal event. */
  lemma JudgeStep(evs: seq<Event>, n: nat, v: Verdict)
    requires n < |evs| && Remembers(evs, n, v)
    ensures Judge1(v, evs[n]).Good? <==> LegalAt(evs, n)
    ensures Judge1(v, evs[n]).Good? ==> Remembers(evs, n + 1, Judge1(v, evs[n]))
  {
    BeforeStep(evs, n);
    if evs[n].MessageDelta? && v.phase.Body? {
      LegalDeltaMeansClosed(evs, n, v);
    }
    if evs[n].BlockStop? && v.phase.Body? {
      LegalStop(evs, n, v);
    }
  }

  lemma LegalDeltaMeansClosed(evs: seq<Event>, n: nat, v: Verdict)
    requires n < |evs| && Remembers(evs, n, v) && evs[n].MessageDelta? && v.phase.Body?
    ensures v.open == {} <==> LegalAt(evs, n)
  {
    if LegalAt(evs, n) {
      forall i: nat
        ensures i !in v.open
      {
        assert StartedBefore(evs, n, i) ==> StoppedBefore(evs, n, i);
      }
      assert v.open == {};
    }
    if v.open == {} {
      forall i: nat | StartedBefore(evs, n, i)
        ensures StoppedBefore(evs, n, i)
      {
        assert i !in v.open;
      }
    }
  }

  lemma LegalStop(evs: seq<Event>, n: nat, v: Verdict)
    requires n < |evs| && Remembers(evs, n, v) && evs[n].BlockStop? && v.phase.Body?
    ensures evs[n].index in v.open && evs[n].index > v.lastStop <==> LegalAt(evs, n)
  {
    var i := evs[n].index;
    if LegalAt(evs, n) {
      if v.lastStop != -1 {
        var p :| 0 <= p < n && evs[p] == BlockStop(v.lastStop as nat);
        assert evs[p].BlockStop?;
      }
    }
  }

  lemma {:induction false} JudgeLegal(evs: seq<Event>, n: nat)
    requires n <= |evs|
    ensures JudgeN(evs, n).Good? <==> forall j :: 0 <= j < n ==> LegalAt(evs, j)
    ensures JudgeN(evs, n).Good? ==> Remembers(evs, n, JudgeN(evs, n))
  {
    if n > 0 {
      JudgeLegal(evs, n - 1);
      if JudgeN(evs, n - 1).Good? {
        JudgeStep(evs, n - 1, JudgeN(evs, n - 1));
        assert JudgeN(evs, n).Good? <==> LegalAt(evs, n - 1);
      }
    }
  }

  /** The recogniser accepts exactly the bracketed sequences. */
  lemma JudgeCorrect(evs: seq<Event>)
    ensures Bracketed(evs) <==> Judge(evs).Good? && Judge(evs).phase.Closed?
  {
    JudgeLegal(evs, |evs|);
    if evs != [] && Judge(evs).Good? && Last(evs).MessageStop? {
      JudgeLegal(evs, |evs| - 1);
    }
  }
}
