/** One pool member over time, under overlapping requests, background workers and saves that take place
    after the lock is released. */
module Lifetime {
  import opened Prelude
  import opened Lifecycle

  datatype Phase = Attempting | Streaming

  datatype Saved = Saved(flag: SavedFlag, credits: real)

  /** Memory and store, and what every actor (request, worker, operator) is in the middle of: `due` have
      changed the member and still have to copy it, `pending` have copied it and still have to write it. */
  datatype Member = Member(flag: Flag, credits: real, row: Saved,
                           requests: map<nat, Phase>, due: set<nat>, pending: map<nat, Saved>)

  function Copy(m: Member): Saved {
    Saved(Save(m.flag), m.credits)
  }

  const NEW: Member := Member(FRESH, 0.0, Saved(Save(FRESH), 0.0), map[], {}, map[])

  predicate Permanent(m: Member) {
    ClassOf(m.flag).Permanent?
  }

  predicate PermanentInStore(m: Member) {
    ClassOf(Load(m.row.flag)).Permanent?
  }

  // ----- Steps -----

  datatype Op =
    | Select(a: nat)                         // request a got the member from Next
    | Judge(a: nat, v: Verdict, now: int)    // its attempt ended with a disabling answer
    | Succeed(a: nat)                        // its attempt is served
    | Release(a: nat)                        // it is over
    | Credit(a: nat, c: real)                // AddCredits while its answer streams
    | StreamFault(a: nat)                    // a credits or trial error inside its stream
    | Reenable(a: nat, now: int)             // the cooldown worker
    | Revoke(a: nat)                         // the refresh worker met invalid_grant
    | Refresh(a: nat)                        // a token refresh, which saves the member as it is
    | Upsert(a: nat)                         // an operator imports the account again
    | Take(a: nat)                           // a copies the member for its save
    | Send(a: nat)                           // a's copy reaches the store
    | Restart                                // the process ends and loads the store

  predicate Idle(m: Member, a: nat) {
    a !in m.due && a !in m.pending
  }

  predicate InPhase(m: Member, a: nat, p: Phase) {
    a in m.requests && m.requests[a] == p
  }

  /** Only enabled members are selected; an actor in the middle of a save does nothing else. CodeBuddy
      takes its copy in the critical section of the change: its runs have Take directly behind it. */
  predicate Ready(m: Member, op: Op)
  {
    match op
    case Select(a) => Idle(m, a) && a !in m.requests && !m.flag.disabled
    case Judge(a, _, _) => Idle(m, a) && InPhase(m, a, Attempting)
    case Succeed(a) => Idle(m, a) && InPhase(m, a, Attempting)
    case Release(a) => Idle(m, a) && a in m.requests
    case Credit(a, _) => Idle(m, a) && InPhase(m, a, Streaming)
    case StreamFault(a) => Idle(m, a) && InPhase(m, a, Streaming)
    case Reenable(a, _) => Idle(m, a) && a !in m.requests
    case Revoke(a) => Idle(m, a) && a !in m.requests
    case Refresh(a) => Idle(m, a)
    case Upsert(a) => Idle(m, a) && a !in m.requests
    case Take(a) => a in m.due
    case Send(a) => a in m.pending
    case Restart => true
  }

  function Credited(m: Member, c: real): Member
  {
    var m' := m.(credits := m.credits + c);
    if m'.credits >= CREDIT_LIMIT then m'.(flag := Punished(Forever, 0)) else m'
  }

  function Apply(m: Member, op: Op): Member
  {
    match op
    case Select(a) => m.(requests := m.requests[a := Attempting])
    case Judge(a, v, now) => m.(flag := Punished(v, now), requests := m.requests - {a}, due := m.due + {a})
    case Succeed(a) => m.(requests := m.requests[a := Streaming])
    case Release(a) => m.(requests := m.requests - {a})
    case Credit(a, c) => Credited(m, c).(due := m.due + {a})
    case StreamFault(a) => m.(flag := Punished(Forever, 0), due := m.due + {a})
    case Reenable(a, now) =>
      if Reenabled(m.flag, now) == m.flag then m else m.(flag := Reenabled(m.flag, now), due := m.due + {a})
    case Revoke(a) => m.(flag := Punished(Forever, 0), due := m.due + {a})
    case Refresh(a) => m.(due := m.due + {a})
    case Upsert(a) => m.(flag := FRESH, due := m.due + {a})
    case Take(a) => m.(due := m.due - {a}, pending := m.pending[a := Copy(m)])
    case Send(a) => if a in m.pending then m.(row := m.pending[a], pending := m.pending - {a}) else m
    case Restart => Member(Load(m.row.flag), m.row.credits, m.row, map[], {}, map[])
  }

  predicate Possible(m: Member, ops: seq<Op>)
    decreases |ops|
  {
    ops == [] || (Ready(m, ops[0]) && Possible(Apply(m, ops[0]), ops[1..]))
  }

  function Run(m: Member, ops: seq<Op>): Member
    decreases |ops|
  {
    if ops == [] then m else Run(Apply(m, ops[0]), ops[1..])
  }

  // ----- When permanent means permanent -----

  ghost predicate AlwaysPermanent(m: Member, ops: seq<Op>)
    decreases |ops|
  {
    Permanent(m) && (ops == [] || AlwaysPermanent(Apply(m, ops[0]), ops[1..]))
  }

  /** An import by an operator, or a cooldown verdict of a request that was under way. */
  predicate Reopens(op: Op) {
    op.Upsert? || (op.Judge? && op.v.ForNow?)
  }

  /** A restart while the store does not hold the disable. */
  ghost predicate ForgottenAtRestart(m: Member, ops: seq<Op>)
    decreases |ops|
  {
    ops != [] && ((ops[0].Restart? && !PermanentInStore(m)) || ForgottenAtRestart(Apply(m, ops[0]), ops[1..]))
  }

  /** Over any run, with requests and saves overlapping in any way: a permanently disabled member stays so
      if and only if nobody imports it, no cooldown verdict comes in, and the store holds the disable
      whenever the process restarts. */
  lemma {:induction false} StaysPermanentIff(m: Member, ops: seq<Op>)
    requires Permanent(m) && Possible(m, ops)
    ensures AlwaysPermanent(m, ops) <==>
              (forall i :: 0 <= i < |ops| ==> !Reopens(ops[i])) && !ForgottenAtRestart(m, ops)
    decreases |ops|
  {
    if ops != [] {
      var next := Apply(m, ops[0]);
      assert Permanent(next) <==> !Reopens(ops[0]) && (ops[0].Restart? ==> PermanentInStore(m));
      assert forall i :: 0 <= i < |ops| - 1 ==> ops[1..][i] == ops[i + 1];
      assert (forall i :: 0 <= i < |ops| ==> !Reopens(ops[i])) <==>
             !Reopens(ops[0]) && forall i :: 0 <= i < |ops| - 1 ==> !Reopens(ops[1..][i]) by {
        if forall i :: 0 <= i < |ops| - 1 ==> !Reopens(ops[1..][i]) {
          forall i | 0 < i < |ops|
            ensures Reopens(ops[i]) == Reopens(ops[1..][i - 1])
          {
          }
        }
      }
      if Permanent(next) {
        StaysPermanentIff(next, ops[1..]);
      }
    }
  }

  // ----- What the store holds -----

  /** The last copy taken in a run, or the given one. */
  function LastTaken(m: Member, ops: seq<Op>, before: Saved): Saved
    decreases |ops|
  {
    if ops == [] then before
    else LastTaken(Apply(m, ops[0]), ops[1..], if ops[0].Take? then Copy(m) else before)
  }

  /** The last copy sent in a run, or the given one. */
  function LastSent(m: Member, ops: seq<Op>, before: Saved): Saved
    decreases |ops|
  {
    if ops == [] then before
    else LastSent(Apply(m, ops[0]), ops[1..], if ops[0].Send? && ops[0].a in m.pending then m.pending[ops[0].a] else before)
  }

  /** The row is the last copy sent. */
  lemma {:induction false} RowIsLastSent(m: Member, ops: seq<Op>)
    ensures Run(m, ops).row == LastSent(m, ops, m.row)
    decreases |ops|
  {
    if ops != [] {
      RowIsLastSent(Apply(m, ops[0]), ops[1..]);
    }
  }

  /** As long as the process runs, memory is the last copy taken whenever nobody still has to take one. */
  lemma {:induction false} MemoryIsLastTaken(m: Member, ops: seq<Op>, before: Saved)
    requires Possible(m, ops) && Restart !in ops && (m.due == {} ==> Copy(m) == before)
    ensures Run(m, ops).due == {} ==> Copy(Run(m, ops)) == LastTaken(m, ops, before)
    decreases |ops|
  {
    if ops != [] {
      var next := Apply(m, ops[0]);
      assert ops[0] in ops && forall op :: op in ops[1..] ==> op in ops;
      assert next.due == {} ==> Copy(next) == if ops[0].Take? then Copy(m) else before by {
        if ops[0] != Restart && !ops[0].Take? && !ops[0].Send? {
          assert ops[0].a in next.due || (next.due == m.due && Copy(next) == Copy(m));
        }
      }
      MemoryIsLastTaken(next, ops[1..], if ops[0].Take? then Copy(m) else before);
    }
  }

  predicate AtRest(m: Member) {
    m.due == {} && m.pending == map[]
  }

  /** At rest the store agrees with memory if and only if the copy sent last is the copy taken last. */
  lemma StoreAgreesIff(m: Member, ops: seq<Op>)
    requires AtRest(m) && Copy(m) == m.row && Possible(m, ops) && Restart !in ops && AtRest(Run(m, ops))
    ensures Run(m, ops).row == Copy(Run(m, ops)) <==> LastSent(m, ops, m.row) == LastTaken(m, ops, m.row)
  {
    RowIsLastSent(m, ops);
    MemoryIsLastTaken(m, ops, m.row);
  }

  /** In particular a disable is stored if and only if the copy sent last is one of a permanent member. */
  lemma StoredPermanentIff(m: Member, ops: seq<Op>)
    ensures PermanentInStore(Run(m, ops)) <==> ClassOf(Load(LastSent(m, ops, m.row).flag)).Permanent?
  {
    RowIsLastSent(m, ops);
  }

  // ----- One thing at a time -----

  /** Requests on the member do not overlap, every change is saved before the next one, the refresh worker
      does not revoke during an attempt, verdicts carry times past second one, nobody imports. */
  predicate Careful(m: Member, op: Op)
  {
    && Ready(m, op)
    && (!op.Take? && !op.Send? ==> AtRest(m))
    && (op.Select? ==> m.requests == map[])
    && (op.Revoke? ==> forall a :: a in m.requests ==> m.requests[a].Streaming?)
    && (op.Judge? ==> op.now >= SECOND)
    && !op.Upsert?
  }

  predicate Disciplined(m: Member, ops: seq<Op>)
    decreases |ops|
  {
    ops == [] || (Careful(m, ops[0]) && Disciplined(Apply(m, ops[0]), ops[1..]))
  }

  ghost predicate Inv(m: Member)
  {
    && (forall a, b :: a in m.requests && b in m.requests ==> a == b)
    && (forall a :: a in m.requests && m.requests[a].Attempting? ==> !m.flag.disabled)
    && (forall a, b :: a in m.due + m.pending.Keys && b in m.due + m.pending.Keys ==> a == b)
    && (forall a :: a in m.pending ==> m.pending[a] == Copy(m) && a !in m.due)
    && (AtRest(m) ==> ClassOf(Load(m.row.flag)) == ClassOf(m.flag) && m.row.credits == m.credits)
    && (m.flag.disabled && m.flag.at.At? ==> m.flag.at.t >= SECOND)
    && (m.credits >= CREDIT_LIMIT ==> Permanent(m))
  }

  /** A new member is in order. */
  lemma NewIsInOrder()
    ensures Inv(NEW) && AtRest(NEW) && Copy(NEW) == NEW.row
  {
    SaveLoadClass(FRESH);
  }

  lemma CarefulKeepsInv(m: Member, op: Op)
    requires Inv(m) && Careful(m, op)
    ensures Inv(Apply(m, op))
    ensures Permanent(m) ==> Permanent(Apply(m, op))
  {
    var next := Apply(m, op);
    match op {
      case Send(a) =>
        SaveLoadClass(m.flag);
        assert next.pending == map[];
      case Restart =>
        SaveLoadClass(m.flag);
      case _ =>
    }
  }

  /** Permanent disabling is absorbing: over every run in which one thing happens at a time, with saves,
      restarts and workers, a permanent member stays permanent and is never selected, the store agrees
      whenever a save is through, and whoever reaches the credit limit is permanent. */
  lemma {:induction false} PermanentIsAbsorbing(m: Member, ops: seq<Op>)
    requires Inv(m) && Disciplined(m, ops)
    ensures Inv(Run(m, ops))
    ensures Permanent(m) ==>
              && Permanent(Run(m, ops)) && (AtRest(Run(m, ops)) ==> PermanentInStore(Run(m, ops)))
              && forall i :: 0 <= i < |ops| ==> !ops[i].Select?
    ensures Run(m, ops).credits >= CREDIT_LIMIT ==> Permanent(Run(m, ops))
    decreases |ops|
  {
    if ops != [] {
      CarefulKeepsInv(m, ops[0]);
      PermanentIsAbsorbing(Apply(m, ops[0]), ops[1..]);
      assert forall i :: 0 < i < |ops| ==> ops[i] == ops[1..][i - 1];
    }
  }

  // ----- Runs that bring a disabled member back -----

  lemma First(m: Member, op: Op, rest: seq<Op>, next: Member)
    requires Ready(m, op) && Apply(m, op) == next && Possible(next, rest)
    ensures Possible(m, [op] + rest) && Run(m, [op] + rest) == Run(next, rest)
  {
    assert ([op] + rest)[1..] == rest;
  }

  /** A request's verdict, copied and stored. */
  function Verdicts(a: nat, v: Verdict, t: int): seq<Op> {
    [Judge(a, v, t)] + ([Take(a)] + ([Send(a)] + []))
  }

  lemma VerdictIsStored(m: Member, a: nat, v: Verdict, t: int)
    requires Idle(m, a) && InPhase(m, a, Attempting)
    ensures Possible(m, Verdicts(a, v, t))
    ensures Run(m, Verdicts(a, v, t)) ==
            m.(flag := Punished(v, t), row := Saved(Save(Punished(v, t)), m.credits), requests := m.requests - {a})
  {
    var judged := m.(flag := Punished(v, t), requests := m.requests - {a}, due := m.due + {a});
    var taken := judged.(due := m.due, pending := m.pending[a := Copy(judged)]);
    var stored := judged.(due := m.due, row := Copy(judged));
    assert judged.due - {a} == m.due && taken.pending - {a} == m.pending;
    First(taken, Send(a), [], stored);
    First(judged, Take(a), [Send(a)] + [], taken);
    First(m, Judge(a, v, t), [Take(a)] + ([Send(a)] + []), judged);
  }

  lemma {:induction false} RunConcat(m: Member, a: seq<Op>, b: seq<Op>)
    requires Possible(m, a) && Possible(Run(m, a), b)
    ensures Possible(m, a + b) && Run(m, a + b) == Run(Run(m, a), b)
    decreases |a|
  {
    if a == [] {
      assert a + b == b;
    } else {
      assert (a + b)[1..] == a[1..] + b;
      RunConcat(Apply(m, a[0]), a[1..], b);
    }
  }

  /** Two overlapping requests on a new member: the first one's verdict is permanent and stored, the
      second one's rate limit turns it into a cooldown, and ten minutes later the member is active. */
  lemma OverlapRevives(t: int, later: int)
    requires later - t > COOLDOWN
    ensures var one := [Select(0)] + ([Select(1)] + Verdicts(0, Forever, t));
            var two := Verdicts(1, ForNow, t) + [Reenable(2, later)];
            && Possible(NEW, one + two)
            && Permanent(Run(NEW, one)) && PermanentInStore(Run(NEW, one))
            && ClassOf(Run(NEW, one + two).flag).Active?
  {
    var m1 := NEW.(requests := map[0 := Attempting]);
    var m2 := NEW.(requests := map[0 := Attempting, 1 := Attempting]);
    VerdictIsStored(m2, 0, Forever, t);
    First(m1, Select(1), Verdicts(0, Forever, t), m2);
    First(NEW, Select(0), [Select(1)] + Verdicts(0, Forever, t), m1);
    var m3 := Run(m2, Verdicts(0, Forever, t));
    VerdictIsStored(m3, 1, ForNow, t);
    var m4 := Run(m3, Verdicts(1, ForNow, t));
    First(m4, Reenable(2, later), [], Apply(m4, Reenable(2, later)));
    assert [Reenable(2, later)] + [] == [Reenable(2, later)];
    RunConcat(m3, Verdicts(1, ForNow, t), [Reenable(2, later)]);
    RunConcat(NEW, [Select(0)] + ([Select(1)] + Verdicts(0, Forever, t)), Verdicts(1, ForNow, t) + [Reenable(2, later)]);
  }

  /** A new member after one rate limit, stored. */
  function Cooled(t: int): Member {
    NEW.(flag := Flag(true, At(t)), row := Saved(Save(Flag(true, At(t))), 0.0))
  }

  lemma NewCools(t: int)
    ensures var ops := [Select(0)] + Verdicts(0, ForNow, t); Possible(NEW, ops) && Run(NEW, ops) == Cooled(t)
  {
    var one := NEW.(requests := map[0 := Attempting]);
    VerdictIsStored(one, 0, ForNow, t);
    First(NEW, Select(0), Verdicts(0, ForNow, t), one);
    assert one.requests - {0} == map[];
  }

  /** The worker re-enables and copies the member; a request disables it for good and stores that. */
  function DisabledMeanwhile(later: int): seq<Op> {
    [Reenable(2, later)] + ([Take(2)] + ([Select(1)] + Verdicts(1, Forever, later)))
  }

  lemma CopyOutlivesVerdict(t: int, later: int)
    requires later - t > COOLDOWN
    ensures var m := Run(Cooled(t), DisabledMeanwhile(later));
            && Possible(Cooled(t), DisabledMeanwhile(later)) && Permanent(m) && PermanentInStore(m)
            && 2 in m.pending && m.pending[2] == Saved(Save(Flag(false, At(t))), 0.0)
  {
    var open := Flag(false, At(t));
    var m2 := Cooled(t).(flag := open, due := {2});
    var m3 := Cooled(t).(flag := open, pending := map[2 := Saved(Save(open), 0.0)]);
    var m4 := m3.(requests := map[1 := Attempting]);
    VerdictIsStored(m4, 1, Forever, later);
    First(m3, Select(1), Verdicts(1, Forever, later), m4);
    First(m2, Take(2), [Select(1)] + Verdicts(1, Forever, later), m3);
    First(Cooled(t), Reenable(2, later), [Take(2)] + ([Select(1)] + Verdicts(1, Forever, later)), m2);
  }

  /** A save that is written late: the cooldown worker copies the member it has re-enabled, a request
      disables it for good and stores that, then the worker's copy arrives, and a restart brings the
      member back although no cooldown verdict followed the permanent one. */
  lemma StaleSaveRevives(t: int, later: int)
    requires later - t > COOLDOWN
    ensures var disabled := ([Select(0)] + Verdicts(0, ForNow, t)) + DisabledMeanwhile(later);
            var end := [Send(2)] + ([Restart] + []);
            && Possible(NEW, disabled + end)
            && Permanent(Run(NEW, disabled)) && PermanentInStore(Run(NEW, disabled))
            && ClassOf(Run(NEW, disabled + end).flag).Active?
  {
    NewCools(t);
    CopyOutlivesVerdict(t, later);
    var cooled := [Select(0)] + Verdicts(0, ForNow, t);
    RunConcat(NEW, cooled, DisabledMeanwhile(later));
    var m := Run(Cooled(t), DisabledMeanwhile(later));
    var m' := Apply(m, Send(2));
    First(m', Restart, [], Apply(m', Restart));
    First(m, Send(2), [Restart] + [], m');
    RunConcat(NEW, cooled + DisabledMeanwhile(later), [Send(2)] + ([Restart] + []));
  }

  /** A restart before the save: the disable is in memory only and is forgotten. */
  lemma LostSaveRevives(t: int)
    ensures var disabled := [Select(0)] + ([Judge(0, Forever, t)] + ([Take(0)] + []));
            && Possible(NEW, disabled + [Restart]) && Permanent(Run(NEW, disabled))
            && ClassOf(Run(NEW, disabled + [Restart]).flag).Active?
  {
    var m1 := NEW.(requests := map[0 := Attempting]);
    var m2 := Apply(m1, Judge(0, Forever, t));
    var m3 := Apply(m2, Take(0));
    First(m2, Take(0), [], m3);
    First(m1, Judge(0, Forever, t), [Take(0)] + [], m2);
    First(NEW, Select(0), [Judge(0, Forever, t)] + ([Take(0)] + []), m1);
    First(m3, Restart, [], Apply(m3, Restart));
    assert [Restart] + [] == [Restart];
    RunConcat(NEW, [Select(0)] + ([Judge(0, Forever, t)] + ([Take(0)] + [])), [Restart]);
  }

  // ----- Every step -----

  /** What each step makes of the class: a permanent verdict, a fault inside the stream and a revoked token
      disable for good, a cooldown verdict for ten minutes from its time, an import enables; credits do so
      for good from 240 on; the worker ends cooldowns of more than ten minutes; all else leaves it. */
  lemma StepMeans(m: Member, op: Op)
    requires Ready(m, op)
    ensures var n := Apply(m, op);
            match op
            case Judge(_, v, now) => n.flag == if v == Forever then Flag(true, Zero) else Flag(true, At(now))
            case StreamFault(_) => n.flag == Flag(true, Zero)
            case Revoke(_) => n.flag == Flag(true, Zero)
            case Upsert(_) => n.flag == Flag(false, Zero)
            case Credit(_, c) => n.credits == m.credits + c && n.flag == if m.credits + c >= 240.0 then Flag(true, Zero) else m.flag
            case Reenable(_, now) =>
              n.flag == if m.flag.disabled && m.flag.at != Zero && now - m.flag.at.t > 600_000_000_000
                        then Flag(false, m.flag.at) else m.flag
            case Restart => n.flag.disabled == m.row.flag.disabled && n.credits == m.row.credits && n.requests == map[]
            case _ => n.flag == m.flag
    ensures !op.Credit? && !op.Restart? ==> Apply(m, op).credits == m.credits
  {
  }

  /** Which steps leave a copy to be written: all that touch flag or credits, and a token refresh. */
  lemma DueMeans(m: Member, op: Op)
    requires Ready(m, op) && !op.Restart? && !op.Take? && !op.Send?
    ensures op.a in Apply(m, op).due <==>
              || op.Judge? || op.Credit? || op.StreamFault? || op.Revoke? || op.Refresh? || op.Upsert?
              || (op.Reenable? && Apply(m, op).flag != m.flag)
    ensures Apply(m, op).row == m.row && Apply(m, op).pending == m.pending
  {
  }
}
