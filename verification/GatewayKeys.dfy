/** Token and request accounting of gateway keys, in memory and in the store. */
module GatewayKeys {
  import opened Prelude

  datatype Info = Info(tokensUsed: int, requests: int, tokenQuota: int, disabled: bool)

  /** The counters of the Redis hash. */
  datatype Row = Row(tokensUsed: int, requests: int, disabled: bool)

  /** One store command of a call. */
  datatype Write = IncrTokens(amount: int) | IncrRequests | SaveAll(row: Row)

  /** A key: its memory state, its row, and for every call in flight the commands it still has to send. */
  datatype Key = Key(info: Info, row: Row, calls: seq<seq<Write>>)

  function RowOf(i: Info): Row {
    Row(i.tokensUsed, i.requests, i.disabled)
  }

  // ----- Steps -----

  datatype Step =
    | UseTokens(amount: int)
    | UseRequest
    | Update(tokenQuota: int, disabled: bool, setDisabled: bool)
    | Send(c: nat)  // call c sends its next command

  function Charged(i: Info, amount: int): Info
  {
    var i1 := i.(tokensUsed := i.tokensUsed + amount, requests := i.requests + 1);
    if i1.tokenQuota > 0 && i1.tokensUsed >= i1.tokenQuota then i1.(disabled := true) else i1
  }

  function Updated(i: Info, quota: int, disabled: bool, setDisabled: bool): Info
  {
    i.(tokenQuota := if quota >= 0 then quota else i.tokenQuota, disabled := if setDisabled then disabled else i.disabled)
  }

  /** The commands of a charge; a disabled key is saved behind its increments. */
  function ChargeWrites(i: Info, amount: int): seq<Write> {
    if i.disabled then [IncrTokens(amount), IncrRequests, SaveAll(RowOf(i))] else [IncrTokens(amount), IncrRequests]
  }

  function Written(r: Row, w: Write): Row
  {
    match w
    case IncrTokens(n) => r.(tokensUsed := r.tokensUsed + n)
    case IncrRequests => r.(requests := r.requests + 1)
    case SaveAll(row) => row
  }

  predicate Ready(k: Key, s: Step) {
    s.Send? ==> s.c < |k.calls| && k.calls[s.c] != []
  }

  function Apply(k: Key, s: Step): Key
    requires Ready(k, s)
  {
    match s
    case UseTokens(amount) =>
      var i := Charged(k.info, amount);
      k.(info := i, calls := k.calls + [ChargeWrites(i, amount)])
    case UseRequest =>
      k.(info := k.info.(requests := k.info.requests + 1), calls := k.calls + [[IncrRequests]])
    case Update(quota, disabled, setDisabled) =>
      var i := Updated(k.info, quota, disabled, setDisabled);
      k.(info := i, calls := k.calls + [[SaveAll(RowOf(i))]])
    case Send(c) =>
      k.(row := Written(k.row, k.calls[c][0]), calls := k.calls[c := k.calls[c][1..]])
  }

  // ----- The manager as the program runs it -----

  class Manager {
    var keys: map<string, Info>
    var rows: map<string, Row>
    var calls: map<string, seq<seq<Write>>>

    ghost predicate Valid()
      reads this
    {
      keys.Keys == rows.Keys == calls.Keys
    }

    ghost function View(key: string): Key
      requires Valid() && key in keys
      reads this
    {
      Key(keys[key], rows[key], calls[key])
    }

    /** Everything but the given key is as before. */
    twostate predicate OnlyKey(key: string)
      reads this
    {
      && (forall j :: j != key ==> (j in keys <==> j in old(keys)) && (j in keys ==> keys[j] == old(keys)[j]))
      && (forall j :: j != key && j in rows && j in old(rows) ==> rows[j] == old(rows)[j])
      && (forall j :: j != key && j in calls && j in old(calls) ==> calls[j] == old(calls)[j])
    }

    constructor ()
      ensures Valid() && keys == map[]
    {
      keys, rows, calls := map[], map[], map[];
    }

    method AddKey(key: string, quota: int)
      requires Valid()
      modifies this
      ensures Valid() && key in keys && OnlyKey(key)
      ensures View(key) == Key(Info(0, 0, quota, false), Row(0, 0, false), [])
    {
      keys := keys[key := Info(0, 0, quota, false)];
      rows := rows[key := Row(0, 0, false)];
      calls := calls[key := []];
    }

    method IncrementTokens(key: string, amount: int)
      requires Valid()
      modifies this
      ensures Valid() && OnlyKey(key) && keys.Keys == old(keys.Keys)
      ensures key in keys ==> View(key) == Apply(old(View(key)), UseTokens(amount))
    {
      if key !in keys {
        return;
      }
      var info := keys[key];
      info := info.(tokensUsed := info.tokensUsed + amount, requests := info.requests + 1);
      if info.tokenQuota > 0 && info.tokensUsed >= info.tokenQuota {
        info := info.(disabled := true);
      }
      var pending := [IncrTokens(amount), IncrRequests];
      if info.disabled {
        pending := [IncrTokens(amount), IncrRequests, SaveAll(RowOf(info))];
      }
      keys := keys[key := info];
      calls := calls[key := calls[key] + [pending]];
    }

    method IncrementRequests(key: string)
      requires Valid()
      modifies this
      ensures Valid() && OnlyKey(key) && keys.Keys == old(keys.Keys)
      ensures key in keys ==> View(key) == Apply(old(View(key)), UseRequest)
    {
      if key !in keys {
        return;
      }
      keys := keys[key := keys[key].(requests := keys[key].requests + 1)];
      calls := calls[key := calls[key] + [[IncrRequests]]];
    }

    method UpdateKey(key: string, quota: int, disabled: bool, setDisabled: bool) returns (ok: bool)
      requires Valid()
      modifies this
      ensures Valid() && OnlyKey(key) && keys.Keys == old(keys.Keys) && ok == (key in keys)
      ensures key in keys ==> View(key) == Apply(old(View(key)), Update(quota, disabled, setDisabled))
    {
      if key !in keys {
        return false;
      }
      var info := keys[key];
      if quota >= 0 {
        info := info.(tokenQuota := quota);
      }
      if setDisabled {
        info := info.(disabled := disabled);
      }
      keys := keys[key := info];
      calls := calls[key := calls[key] + [[SaveAll(RowOf(info))]]];
      ok := true;
    }
  }

  // ----- Runs -----

  ghost predicate Possible(k: Key, steps: seq<Step>)
    decreases |steps|
  {
    steps == [] || (Ready(k, steps[0]) && Possible(Apply(k, steps[0]), steps[1..]))
  }

  function Run(k: Key, steps: seq<Step>): Key
    requires Possible(k, steps)
    decreases |steps|
  {
    if steps == [] then k else Run(Apply(k, steps[0]), steps[1..])
  }

  predicate NoUpdate(steps: seq<Step>) {
    forall i :: 0 <= i < |steps| ==> !steps[i].Update?
  }

  /** The callers only report positive amounts. */
  predicate Charges(steps: seq<Step>) {
    forall i :: 0 <= i < |steps| && steps[i].UseTokens? ==> steps[i].amount > 0
  }

  /** With a fixed positive quota a key is disabled exactly while its total has reached the quota. */
  lemma {:induction false} DisabledIffQuotaReached(k: Key, steps: seq<Step>)
    requires Possible(k, steps) && NoUpdate(steps) && Charges(steps) && k.info.tokenQuota > 0
    requires k.info.disabled <==> k.info.tokensUsed >= k.info.tokenQuota
    ensures var r := Run(k, steps).info;
            r.tokenQuota == k.info.tokenQuota && (r.disabled <==> r.tokensUsed >= r.tokenQuota)
    decreases |steps|
  {
    if steps != [] {
      assert forall i :: 0 <= i < |steps| - 1 ==> steps[1..][i] == steps[i + 1];
      DisabledIffQuotaReached(Apply(k, steps[0]), steps[1..]);
    }
  }

  /** The step that disables a key is the charge that brings its total to the quota. */
  lemma DisablingStep(k: Key, s: Step)
    requires Ready(k, s) && !s.Update? && k.info.tokenQuota > 0 && !k.info.disabled
    ensures Apply(k, s).info.disabled <==> s.UseTokens? && k.info.tokensUsed + s.amount >= k.info.tokenQuota
  {
  }

  /** The tokens charged in a run. */
  function TokensCharged(steps: seq<Step>): int
  {
    if steps == [] then 0 else (if steps[0].UseTokens? then steps[0].amount else 0) + TokensCharged(steps[1..])
  }

  /** The requests counted in a run. */
  function RequestsCounted(steps: seq<Step>): nat
  {
    if steps == [] then 0 else (if steps[0].UseTokens? || steps[0].UseRequest? then 1 else 0) + RequestsCounted(steps[1..])
  }

  /** The quota after a run: the last one that an update set, negative ones left out. */
  function QuotaAfter(quota: int, steps: seq<Step>): int
    decreases |steps|
  {
    if steps == [] then quota
    else QuotaAfter(if steps[0].Update? && steps[0].tokenQuota >= 0 then steps[0].tokenQuota else quota, steps[1..])
  }

  /** Memory after any run: every token charged, every request counted, the last quota set. */
  lemma {:induction false} MemoryTotals(k: Key, steps: seq<Step>)
    requires Possible(k, steps)
    ensures var i := Run(k, steps).info;
            && i.tokensUsed == k.info.tokensUsed + TokensCharged(steps)
            && i.requests == k.info.requests + RequestsCounted(steps)
            && i.tokenQuota == QuotaAfter(k.info.tokenQuota, steps)
    decreases |steps|
  {
    if steps != [] {
      MemoryTotals(Apply(k, steps[0]), steps[1..]);
    }
  }

  /** What disables and enables a key: a charge that brings the total to a positive quota disables it, an
      update sets the flag it carries, and nothing else touches it. */
  lemma FlagMeans(k: Key, s: Step)
    requires Ready(k, s)
    ensures var i := k.info; var d := Apply(k, s).info.disabled;
            && (s.UseTokens? ==> (d <==> i.disabled || (i.tokenQuota > 0 && i.tokensUsed + s.amount >= i.tokenQuota)))
            && (s.Update? && s.setDisabled ==> d == s.disabled)
            && (s.UseRequest? || s.Send? || (s.Update? && !s.setDisabled) ==> d == i.disabled)
  {
  }

  // ----- Quiescent agreement -----

  function TokensIn(ws: seq<Write>): int
  {
    if ws == [] then 0 else (if ws[0].IncrTokens? then ws[0].amount else 0) + TokensIn(ws[1..])
  }

  function RequestsIn(ws: seq<Write>): int
  {
    if ws == [] then 0 else (if ws[0].IncrRequests? then 1 else 0) + RequestsIn(ws[1..])
  }

  function PendingTokens(calls: seq<seq<Write>>): int
  {
    if calls == [] then 0 else TokensIn(calls[|calls| - 1]) + PendingTokens(calls[..|calls| - 1])
  }

  function PendingRequests(calls: seq<seq<Write>>): int
  {
    if calls == [] then 0 else RequestsIn(calls[|calls| - 1]) + PendingRequests(calls[..|calls| - 1])
  }

  lemma {:induction false} PendingAfterSend(calls: seq<seq<Write>>, c: nat)
    requires c < |calls| && calls[c] != []
    ensures var after := calls[c := calls[c][1..]]; var w := calls[c][0];
            && PendingTokens(after) == PendingTokens(calls) - (if w.IncrTokens? then w.amount else 0)
            && PendingRequests(after) == PendingRequests(calls) - (if w.IncrRequests? then 1 else 0)
  {
    var after := calls[c := calls[c][1..]];
    var n := |calls| - 1;
    if c == n {
      assert after[..n] == calls[..n];
    } else {
      assert after[..n] == calls[..n][c := calls[..n][c][1..]];
      PendingAfterSend(calls[..n], c);
    }
  }

  lemma PendingAfterCall(calls: seq<seq<Write>>, ws: seq<Write>)
    ensures PendingTokens(calls + [ws]) == PendingTokens(calls) + TokensIn(ws)
    ensures PendingRequests(calls + [ws]) == PendingRequests(calls) + RequestsIn(ws)
  {
    assert (calls + [ws])[..|calls|] == calls;
  }

  /** How far the stored row, together with the increments on their way, is ahead of memory. */
  function TokenGap(k: Key): int {
    k.row.tokensUsed + PendingTokens(k.calls) - k.info.tokensUsed
  }

  function RequestGap(k: Key): int {
    k.row.requests + PendingRequests(k.calls) - k.info.requests
  }

  predicate SendsSave(k: Key, s: Step)
    requires Ready(k, s)
  {
    s.Send? && k.calls[s.c][0].SaveAll?
  }

  lemma FirstWrite(w: Write, rest: seq<Write>)
    ensures TokensIn([w] + rest) == (if w.IncrTokens? then w.amount else 0) + TokensIn(rest)
    ensures RequestsIn([w] + rest) == (if w.IncrRequests? then 1 else 0) + RequestsIn(rest)
  {
    assert ([w] + rest)[1..] == rest;
  }

  lemma ChargeIncrements(i: Info, amount: int)
    ensures TokensIn(ChargeWrites(i, amount)) == amount && RequestsIn(ChargeWrites(i, amount)) == 1
  {
    var tail := if i.disabled then [SaveAll(RowOf(i))] else [];
    FirstWrite(IncrTokens(amount), [IncrRequests] + tail);
    FirstWrite(IncrRequests, tail);
    assert ChargeWrites(i, amount) == [IncrTokens(amount)] + ([IncrRequests] + tail);
    assert i.disabled ==> tail[1..] == [];
  }

  /** Every step but the sending of a snapshot keeps the gap. */
  lemma StepKeepsGap(k: Key, s: Step)
    requires Ready(k, s) && !SendsSave(k, s)
    ensures TokenGap(Apply(k, s)) == TokenGap(k) && RequestGap(Apply(k, s)) == RequestGap(k)
  {
    match s {
      case UseTokens(amount) =>
        var i := Charged(k.info, amount);
        ChargeIncrements(i, amount);
        PendingAfterCall(k.calls, ChargeWrites(i, amount));
      case UseRequest =>
        PendingAfterCall(k.calls, [IncrRequests]);
        assert [IncrRequests][1..] == [];
      case Update(quota, disabled, setDisabled) =>
        var ws := Last(Apply(k, s).calls);
        PendingAfterCall(k.calls, ws);
        assert ws[1..] == [];
      case Send(c) =>
        PendingAfterSend(k.calls, c);
    }
  }

  /** The last snapshot sent in a run, with the state it left. */
  datatype Saved = Saved(row: Row, after: Key)

  function LastSave(k: Key, steps: seq<Step>): (l: Option<Saved>)
    requires Possible(k, steps)
    ensures l.Some? ==> l.value.row == l.value.after.row
    decreases |steps|
  {
    if steps == [] then None
    else
      var next := Apply(k, steps[0]);
      var l := LastSave(next, steps[1..]);
      if l.Some? then l
      else if SendsSave(k, steps[0]) then Some(Saved(k.calls[steps[0].c][0].row, next))
      else None
  }

  /** When it was sent, the snapshot and the increments still on their way made up memory: what was under
      way is exactly what memory had gained since the snapshot. */
  predicate Fits(l: Saved)
  {
    && l.row.tokensUsed + PendingTokens(l.after.calls) == l.after.info.tokensUsed
    && l.row.requests + PendingRequests(l.after.calls) == l.after.info.requests
  }

  /** The gap at the end of any run is the one its last snapshot left, or the initial one. */
  lemma {:induction false} GapOfRun(k: Key, steps: seq<Step>)
    requires Possible(k, steps)
    ensures var l := LastSave(k, steps); var from := if l.Some? then l.value.after else k;
            TokenGap(Run(k, steps)) == TokenGap(from) && RequestGap(Run(k, steps)) == RequestGap(from)
    decreases |steps|
  {
    if steps != [] {
      GapOfRun(Apply(k, steps[0]), steps[1..]);
      if !SendsSave(k, steps[0]) {
        StepKeepsGap(k, steps[0]);
      }
    }
  }

  lemma {:induction false} NothingPending(calls: seq<seq<Write>>)
    requires forall c :: 0 <= c < |calls| ==> calls[c] == []
    ensures PendingTokens(calls) == 0 && PendingRequests(calls) == 0
  {
    if calls != [] {
      NothingPending(calls[..|calls| - 1]);
    }
  }

  ghost predicate Quiet(k: Key) {
    forall c :: 0 <= c < |k.calls| ==> k.calls[c] == []
  }

  predicate CountersAgree(k: Key) {
    k.row.tokensUsed == k.info.tokensUsed && k.row.requests == k.info.requests
  }

  /** Nothing is missing: the row and the increments on their way make up memory. */
  predicate Whole(k: Key) {
    TokenGap(k) == 0 && RequestGap(k) == 0
  }

  /** Under any interleaving of charges, disables, updates and store commands: once every command was
      sent, the stored counters equal those in memory if and only if the last snapshot sent fitted, or,
      when none was sent, nothing was missing at the start. */
  lemma QuiescentAgreementIff(k: Key, steps: seq<Step>)
    requires Possible(k, steps) && Quiet(Run(k, steps))
    ensures var l := LastSave(k, steps);
            CountersAgree(Run(k, steps)) <==> if l.Some? then Fits(l.value) else Whole(k)
  {
    GapOfRun(k, steps);
    NothingPending(Run(k, steps).calls);
  }

  // ----- Runs without a snapshot -----

  ghost predicate NoSaves(calls: seq<seq<Write>>) {
    forall c, i :: 0 <= c < |calls| && 0 <= i < |calls[c]| ==> !calls[c][i].SaveAll?
  }

  /** Without updates a key that is enabled at the end was enabled throughout. */
  lemma {:induction false} DisabledStays(k: Key, steps: seq<Step>)
    requires Possible(k, steps) && NoUpdate(steps) && k.info.disabled
    ensures Run(k, steps).info.disabled
    decreases |steps|
  {
    if steps != [] {
      assert forall i :: 0 <= i < |steps| - 1 ==> steps[1..][i] == steps[i + 1];
      DisabledStays(Apply(k, steps[0]), steps[1..]);
    }
  }

  lemma {:induction false} NoSaveSent(k: Key, steps: seq<Step>)
    requires NoSaves(k.calls) && Possible(k, steps) && NoUpdate(steps) && !Run(k, steps).info.disabled
    ensures LastSave(k, steps).None?
    decreases |steps|
  {
    if steps != [] {
      assert forall i :: 0 <= i < |steps| - 1 ==> steps[1..][i] == steps[i + 1];
      var next := Apply(k, steps[0]);
      if next.info.disabled {
        DisabledStays(next, steps[1..]);
        assert false;
      }
      forall c, i | 0 <= c < |next.calls| && 0 <= i < |next.calls[c]|
        ensures !next.calls[c][i].SaveAll?
      {
        if steps[0].Send? && c == steps[0].c {
          assert next.calls[c][i] == k.calls[c][i + 1];
        }
      }
      NoSaveSent(next, steps[1..]);
    }
  }

  /** Memory is the stored row plus what is still on its way. */
  ghost predicate Balanced(k: Key) {
    Whole(k) && NoSaves(k.calls)
  }

  /** Under any interleaving of calls and store commands, in a run without update at whose end the key is
      enabled: once every command was sent, the stored counters equal those in memory. */
  lemma QuiescentAgreement(k: Key, steps: seq<Step>)
    requires Balanced(k) && Possible(k, steps) && NoUpdate(steps)
    requires !Run(k, steps).info.disabled && Quiet(Run(k, steps))
    ensures CountersAgree(Run(k, steps))
  {
    NoSaveSent(k, steps);
    QuiescentAgreementIff(k, steps);
  }

  // ----- One call at a time -----

  function LastCall(calls: seq<seq<Write>>): seq<Write> {
    if calls == [] then [] else calls[|calls| - 1]
  }

  function Replay(r: Row, ws: seq<Write>): Row
    decreases |ws|
  {
    if ws == [] then r else Replay(Written(r, ws[0]), ws[1..])
  }

  /** Only the latest call still has something to send, and that makes the row equal to memory. */
  ghost predicate Settling(k: Key)
  {
    && (forall c :: 0 <= c < |k.calls| - 1 ==> k.calls[c] == [])
    && Replay(k.row, LastCall(k.calls)) == RowOf(k.info)
  }

  /** Every new call starts after the previous one has sent everything. */
  ghost predicate OneAtATime(k: Key, steps: seq<Step>)
    requires Possible(k, steps)
    decreases |steps|
  {
    steps == [] ||
    ((!steps[0].Send? ==> LastCall(k.calls) == []) && OneAtATime(Apply(k, steps[0]), steps[1..]))
  }

  lemma ChargeSettles(r: Row, i: Info, amount: int)
    requires r == RowOf(i)
    ensures var i' := Charged(i, amount);
            Replay(r, ChargeWrites(i', amount)) == RowOf(i')
  {
    var i' := Charged(i, amount);
    var ws := ChargeWrites(i', amount);
    var r1 := Written(r, ws[0]);
    var r2 := Written(r1, ws[1]);
    assert ws[1..][0] == ws[1];
    assert Replay(r, ws) == Replay(r1, ws[1..]) == Replay(r2, ws[1..][1..]);
    if i'.disabled {
      assert ws[1..][1..] == [SaveAll(RowOf(i'))];
      assert Replay(r2, [SaveAll(RowOf(i'))]) == Replay(RowOf(i'), [SaveAll(RowOf(i'))][1..]);
    } else {
      assert ws[1..][1..] == [];
    }
  }

  lemma StepSettles(k: Key, s: Step)
    requires Settling(k) && Ready(k, s) && (!s.Send? ==> LastCall(k.calls) == [])
    ensures Settling(Apply(k, s))
  {
    match s {
      case UseTokens(amount) =>
        ChargeSettles(k.row, k.info, amount);
      case UseRequest =>
        assert Replay(k.row, [IncrRequests]) == Replay(Written(k.row, IncrRequests), [IncrRequests][1..]);
      case Update(quota, disabled, setDisabled) =>
        var i := Updated(k.info, quota, disabled, setDisabled);
        assert Replay(k.row, [SaveAll(RowOf(i))]) == Replay(RowOf(i), [SaveAll(RowOf(i))][1..]);
      case Send(c) =>
        assert c == |k.calls| - 1;
    }
  }

  /** When calls do not overlap, the row equals memory after every completed call, through disables and
      updates as well. */
  lemma {:induction false} SequentialAgreement(k: Key, steps: seq<Step>)
    requires Settling(k) && Possible(k, steps) && OneAtATime(k, steps)
    ensures Settling(Run(k, steps))
    ensures LastCall(Run(k, steps).calls) == [] ==> Run(k, steps).row == RowOf(Run(k, steps).info)
    ensures LastCall(Run(k, steps).calls) == [] ==>
              var r := Run(k, steps);
              r.row.disabled == r.info.disabled && r.row.tokensUsed == r.info.tokensUsed && r.row.requests == r.info.requests
    decreases |steps|
  {
    if steps != [] {
      StepSettles(k, steps[0]);
      SequentialAgreement(Apply(k, steps[0]), steps[1..]);
    }
  }

  /** So with one call at a time the last snapshot sent always fits. */
  lemma SequentialSavesFit(k: Key, steps: seq<Step>)
    requires Settling(k) && Possible(k, steps) && OneAtATime(k, steps) && LastCall(Run(k, steps).calls) == []
    ensures LastSave(k, steps).Some? ==> Fits(LastSave(k, steps).value)
  {
    SequentialAgreement(k, steps);
    var r := Run(k, steps);
    assert Quiet(r);
    QuiescentAgreementIff(k, steps);
  }

  // ----- Snapshots that do not fit -----

  function Unused(quota: int): Key {
    Key(Info(0, 0, quota, false), Row(0, 0, false), [])
  }

  lemma FirstStep(k: Key, s: Step, rest: seq<Step>, next: Key)
    requires Ready(k, s) && Apply(k, s) == next && Possible(next, rest)
    ensures Possible(k, [s] + rest) && Run(k, [s] + rest) == Run(next, rest)
  {
    assert ([s] + rest)[1..] == rest;
  }

  lemma FirstSend(k: Key, c: nat, rest: seq<Step>, next: Key)
    requires c < |k.calls| == |next.calls| && k.calls[c] != []
    requires next.info == k.info && next.row == Written(k.row, k.calls[c][0])
    requires k.calls[c] == [k.calls[c][0]] + next.calls[c]
    requires forall i :: 0 <= i < |k.calls| && i != c ==> next.calls[i] == k.calls[i]
    requires Possible(next, rest)
    ensures Possible(k, [Send(c)] + rest) && Run(k, [Send(c)] + rest) == Run(next, rest)
  {
    assert k.calls[c][1..] == next.calls[c];
    assert next.calls == k.calls[c := k.calls[c][1..]];
    FirstStep(k, Send(c), rest, next);
  }

  /** The increments of the first call reach the store after the snapshot that already holds them. */
  lemma SendAfterSave(k: Key, a: int)
    requires k.calls == [[IncrTokens(a), IncrRequests], []]
    ensures var steps := [Send(0)] + [Send(0)];
            && Possible(k, steps) && Quiet(Run(k, steps)) && Run(k, steps).info == k.info
            && Run(k, steps).row.tokensUsed == k.row.tokensUsed + a
  {
    var k1 := Apply(k, Send(0));
    assert k1.calls == [[IncrRequests], []];
    var k2 := Apply(k1, Send(0));
    assert k2.calls == [[], []];
    FirstSend(k1, 0, [], k2);
    assert [Send(0)] + [] == [Send(0)];
    FirstStep(k, Send(0), [Send(0)], k1);
  }

  /** A disable: the charge that reaches the quota writes its snapshot while another call's increment,
      already in that snapshot, is still on its way, and then counts twice. */
  lemma SnapshotCountsTwice(a: int, b: int)
    requires a > 0 && b > 0
    ensures var k := Unused(a + b);
            var steps := [UseTokens(a), UseTokens(b), Send(1), Send(1), Send(1), Send(0), Send(0)];
            && Possible(k, steps) && Quiet(Run(k, steps)) && NoUpdate(steps)
            && Run(k, steps).info.tokensUsed == a + b && Run(k, steps).row.tokensUsed == a + b + a
  {
    var save := SaveAll(Row(a + b, 2, true));
    var mine := [IncrTokens(a), IncrRequests];
    var info := Info(a + b, 2, a + b, true);
    var k := Unused(a + b);
    var k1 := Key(Info(a, 1, a + b, false), Row(0, 0, false), [mine]);
    var k2 := Key(info, Row(0, 0, false), [mine, [IncrTokens(b), IncrRequests, save]]);
    var k3 := Key(info, Row(b, 0, false), [mine, [IncrRequests, save]]);
    var k4 := Key(info, Row(b, 1, false), [mine, [save]]);
    var k5 := Key(info, Row(a + b, 2, true), [mine, []]);
    var s5 := [Send(0)] + [Send(0)];
    SendAfterSave(k5, a);
    FirstSend(k4, 1, s5, k5);
    FirstSend(k3, 1, [Send(1)] + s5, k4);
    FirstSend(k2, 1, [Send(1)] + ([Send(1)] + s5), k3);
    var s2 := [Send(1)] + ([Send(1)] + ([Send(1)] + s5));
    FirstStep(k1, UseTokens(b), s2, k2);
    FirstStep(k, UseTokens(a), [UseTokens(b)] + s2, k1);
    assert [UseTokens(a)] + ([UseTokens(b)] + s2)
        == [UseTokens(a), UseTokens(b), Send(1), Send(1), Send(1), Send(0), Send(0)];
  }

  /** An update that disables nothing does the same to a key that is enabled throughout. */
  lemma UpdateCountsTwice(a: int)
    ensures var steps := [UseTokens(a), Update(-1, false, false), Send(1), Send(0), Send(0)];
            && Possible(Unused(0), steps) && Quiet(Run(Unused(0), steps)) && !Run(Unused(0), steps).info.disabled
            && Run(Unused(0), steps).info.tokensUsed == a && Run(Unused(0), steps).row.tokensUsed == a + a
  {
    var mine := [IncrTokens(a), IncrRequests];
    var info := Info(a, 1, 0, false);
    var k1 := Key(info, Row(0, 0, false), [mine]);
    var k2 := Key(info, Row(0, 0, false), [mine, [SaveAll(Row(a, 1, false))]]);
    var k3 := Key(info, Row(a, 1, false), [mine, []]);
    var s3 := [Send(0)] + [Send(0)];
    SendAfterSave(k3, a);
    FirstSend(k2, 1, s3, k3);
    FirstStep(k1, Update(-1, false, false), [Send(1)] + s3, k2);
    FirstStep(Unused(0), UseTokens(a), [Update(-1, false, false)] + ([Send(1)] + s3), k1);
    assert [UseTokens(a)] + ([Update(-1, false, false)] + ([Send(1)] + s3))
        == [UseTokens(a), Update(-1, false, false), Send(1), Send(0), Send(0)];
  }

  /** And a snapshot that is sent late erases a charge that was stored after it was taken. */
  lemma LateSnapshotForgets(a: int)
    ensures var steps := [Update(-1, false, false), UseTokens(a), Send(1), Send(1), Send(0)];
            && Possible(Unused(0), steps) && Quiet(Run(Unused(0), steps)) && !Run(Unused(0), steps).info.disabled
            && Run(Unused(0), steps).info.tokensUsed == a && Run(Unused(0), steps).row.tokensUsed == 0
  {
    var save := [SaveAll(Row(0, 0, false))];
    var info := Info(a, 1, 0, false);
    var k1 := Key(Info(0, 0, 0, false), Row(0, 0, false), [save]);
    var k2 := Key(info, Row(0, 0, false), [save, [IncrTokens(a), IncrRequests]]);
    var k3 := Key(info, Row(a, 0, false), [save, [IncrRequests]]);
    var k4 := Key(info, Row(a, 1, false), [save, []]);
    var k5 := Key(info, Row(0, 0, false), [[], []]);
    FirstSend(k4, 0, [], k5);
    FirstSend(k3, 1, [Send(0)] + [], k4);
    FirstSend(k2, 1, [Send(1)] + ([Send(0)] + []), k3);
    var s2 := [Send(1)] + ([Send(1)] + ([Send(0)] + []));
    FirstStep(k1, UseTokens(a), s2, k2);
    FirstStep(Unused(0), Update(-1, false, false), [UseTokens(a)] + s2, k1);
    assert [Update(-1, false, false)] + ([UseTokens(a)] + s2)
        == [Update(-1, false, false), UseTokens(a), Send(1), Send(1), Send(0)];
  }
}
