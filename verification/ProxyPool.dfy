/** The outbound proxy pool: a list of entries and a derived list of enabled ones. */
module ProxyPool {
  import opened Prelude
  import SharedCounter

  const FAIL_THRESHOLD: nat := 5
  const ALL := "all"
  const GROK := "grok"
  const CODEBUDDY := "codebuddy"

  /** The connection fields; how they are trimmed and checked is a parameter of the pool. */
  datatype Fields = Fields(protocol: string, host: string, port: int, username: string, password: string, caption: string)

  datatype Entry = Entry(id: string, fields: Fields, enabled: bool, upstreams: seq<string>, failCount: nat)

  // ----- Scopes -----

  predicate AppliesTo(upstreams: seq<string>, u: string) {
    upstreams == [] || ALL in upstreams || u in upstreams
  }

  /** The distinct non-blank canonical values, in order of first appearance. */
  function Values(canon: string -> string, names: seq<string>): seq<string>
  {
    if names == [] then []
    else
      var vs := Values(canon, Init(names));
      var v := canon(Last(names));
      if v == "" || v in vs then vs else vs + [v]
  }

  function Normalised(canon: string -> string, names: seq<string>): (r: seq<string>)
    ensures r != []
  {
    var vs := Values(canon, names);
    if vs == [] || ALL in vs then [ALL] else vs
  }

  method NormaliseUpstreams(canon: string -> string, names: seq<string>) returns (out: seq<string>)
    ensures out == Normalised(canon, names)
  {
    if |names| == 0 {
      return [ALL];
    }
    var seen: set<string> := {};
    var hasAll := false;
    out := [];
    for i := 0 to |names|
      invariant out == Values(canon, names[..i])
      invariant forall v :: v in seen <==> v in out
      invariant hasAll <==> ALL in out
    {
      assert Init(names[..i + 1]) == names[..i];
      var v := canon(names[i]);
      if v == "" {
        continue;
      }
      if v in seen {
        continue;
      }
      seen := seen + {v};
      if v == ALL {
        hasAll := true;
      }
      out := out + [v];
    }
    assert names[..|names|] == names;
    if |out| == 0 || hasAll {
      out := [ALL];
    }
  }

  lemma {:induction false} ValuesAre(canon: string -> string, names: seq<string>, v: string)
    ensures v in Values(canon, names) <==> v != "" && exists i :: 0 <= i < |names| && canon(names[i]) == v
  {
    if names != [] {
      ValuesAre(canon, Init(names), v);
      var w := canon(Last(names));
      ValuesAre(canon, Init(names), w);
      if v == w {
        assert canon(names[|names| - 1]) == v;
      }
      if exists i :: 0 <= i < |names| && canon(names[i]) == v {
        var i :| 0 <= i < |names| && canon(names[i]) == v;
        assert i < |names| - 1 ==> canon(Init(names)[i]) == v;
      }
      if exists i :: 0 <= i < |Init(names)| && canon(Init(names)[i]) == v {
        var i :| 0 <= i < |Init(names)| && canon(Init(names)[i]) == v;
        assert canon(names[i]) == v;
      }
    }
  }

  /** What a scope means: an upstream is covered when it or "all" was listed, or nothing usable was. */
  lemma ScopeMeaning(canon: string -> string, names: seq<string>, u: string)
    requires u != ""
    ensures AppliesTo(Normalised(canon, names), u) <==>
              || (exists i :: 0 <= i < |names| && (canon(names[i]) == "all" || canon(names[i]) == u))
              || (forall i :: 0 <= i < |names| ==> canon(names[i]) == "")
  {
    var vs := Values(canon, names);
    ValuesAre(canon, names, ALL);
    ValuesAre(canon, names, u);
    if vs != [] {
      ValuesAre(canon, names, vs[0]);
    }
    forall i | 0 <= i < |names| && canon(names[i]) != ""
      ensures vs != []
    {
      ValuesAre(canon, names, canon(names[i]));
    }
  }

  // ----- The pool -----

  datatype Pool = Pool(entries: seq<Entry>, enabled: seq<Entry>)

  const EMPTY: Pool := Pool([], [])

  /** How an entry is trimmed, checked and canonicalised. */
  datatype Rules = Rules(tidy: Fields -> Fields, valid: Fields -> bool, canon: string -> string)

  function EnabledOf(es: seq<Entry>): seq<Entry>
  {
    if es == [] then [] else EnabledOf(Init(es)) + (if Last(es).enabled then [Last(es)] else [])
  }

  function Rebuilt(entries: seq<Entry>): Pool {
    Pool(entries, EnabledOf(entries))
  }

  function Find(es: seq<Entry>, id: string): (i: nat)
    ensures i <= |es| && (i < |es| ==> es[i].id == id)
    ensures forall j :: 0 <= j < i ==> es[j].id != id
  {
    if es == [] || es[0].id == id then 0 else 1 + Find(es[1..], id)
  }

  predicate Known(es: seq<Entry>, id: string) {
    Find(es, id) < |es|
  }

  function Validated(rules: Rules, e: Entry): Option<Entry>
  {
    var e1 := e.(fields := rules.tidy(e.fields), upstreams := Normalised(rules.canon, e.upstreams));
    if (forall u :: u in e1.upstreams ==> u == ALL || u == GROK || u == CODEBUDDY) && rules.valid(e1.fields)
    then Some(e1) else None
  }

  /** An update request; blank fields and an absent scope keep what is there. */
  datatype Change = Change(fields: Fields, enabled: bool, upstreams: Option<seq<string>>)

  function Changed(e: Entry, c: Change): Entry
  {
    var f := Fields(
      if c.fields.protocol != "" then c.fields.protocol else e.fields.protocol,
      if c.fields.host != "" then c.fields.host else e.fields.host,
      if c.fields.port != 0 then c.fields.port else e.fields.port,
      c.fields.username,
      if c.fields.password != "***" then c.fields.password else e.fields.password,
      c.fields.caption);
    e.(fields := f, enabled := c.enabled, upstreams := if c.upstreams.Some? then c.upstreams.value else e.upstreams)
  }

  datatype Op =
    | Add(id: string, fields: Fields, on: bool, upstreams: seq<string>)
    | Update(id: string, change: Change)
    | Delete(id: string)
    | Toggle(id: string)
    | MarkFailed(id: string)
    | MarkSuccess(id: string)

  function Without(es: seq<Entry>, id: string): seq<Entry>
  {
    if es == [] then [] else Without(Init(es), id) + (if Last(es).id == id then [] else [Last(es)])
  }

  function Failed(e: Entry): Entry
  {
    var n := e.failCount + 1;
    e.(failCount := n, enabled := e.enabled && n < FAIL_THRESHOLD)
  }

  function Toggled(e: Entry): Entry {
    e.(enabled := !e.enabled, failCount := if !e.enabled then 0 else e.failCount)
  }

  function Apply(rules: Rules, p: Pool, op: Op): Pool
  {
    var i := Find(p.entries, op.id);
    match op
    case Add(id, fields, on, upstreams) =>
      var v := Validated(rules, Entry(id, fields, on, upstreams, 0));
      if v.None? then p else Rebuilt(p.entries + [v.value])
    case Update(id, c) =>
      if id == "" || i == |p.entries| then p
      else
        var v := Validated(rules, Changed(p.entries[i], c));
        if v.None? then p else Rebuilt(p.entries[i := v.value.(failCount := 0)])
    case Delete(id) => if id == "" || i == |p.entries| then p else Rebuilt(Without(p.entries, id))
    case Toggle(id) => if i == |p.entries| then p else Rebuilt(p.entries[i := Toggled(p.entries[i])])
    case MarkFailed(id) =>
      if id == "" || i == |p.entries| then p
      else
        var e := Failed(p.entries[i]);
        var es := p.entries[i := e];
        if p.entries[i].enabled && !e.enabled then Rebuilt(es) else p.(entries := es)
    case MarkSuccess(id) =>
      if id == "" || i == |p.entries| then p
      else p.(entries := p.entries[i := p.entries[i].(failCount := 0)])
  }

  // ----- The pool as the program runs it -----

  function Scoped(es: seq<Entry>, u: string): seq<Entry>
  {
    if es == [] then [] else Scoped(Init(es), u) + (if AppliesTo(Last(es).upstreams, u) then [Last(es)] else [])
  }

  /** The entry picked for counter value `v`. */
  function Picked(p: Pool, u: string, v: int): Option<Entry>
  {
    var es := Scoped(p.enabled, u);
    if es == [] then None else Some(es[SharedCounter.IndexFor(v, |es|)])
  }

  class Proxies {
    const rules: Rules
    var entries: seq<Entry>
    var enabled: seq<Entry>
    var rrIndex: nat

    function View(): Pool
      reads this
    {
      Pool(entries, enabled)
    }

    constructor (rules: Rules)
      ensures View() == EMPTY && this.rules == rules && rrIndex == 0
    {
      this.rules := rules;
      entries, enabled, rrIndex := [], [], 0;
    }

    method RebuildEnabled()
      modifies this`enabled
      ensures View() == Rebuilt(old(entries))
    {
      var next := [];
      for i := 0 to |entries|
        invariant next == EnabledOf(entries[..i])
      {
        assert Init(entries[..i + 1]) == entries[..i];
        if entries[i].enabled {
          next := next + [entries[i]];
        }
      }
      assert entries[..|entries|] == entries;
      enabled := next;
    }

    method IndexOf(id: string) returns (idx: int)
      ensures idx == if Known(entries, id) then Find(entries, id) else -1
    {
      for i := 0 to |entries|
        invariant forall j :: 0 <= j < i ==> entries[j].id != id
      {
        if entries[i].id == id {
          return i;
        }
      }
      idx := -1;
    }

    /** `id` is the freshly generated one. */
    method AddEntry(id: string, fields: Fields, on: bool, upstreams: seq<string>) returns (ok: bool)
      modifies this`entries, this`enabled
      ensures View() == Apply(rules, old(View()), Add(id, fields, on, upstreams))
      ensures ok <==> Validated(rules, Entry(id, fields, on, upstreams, 0)).Some?
    {
      var v := Validated(rules, Entry(id, fields, on, upstreams, 0));
      ok := v.Some?;
      if ok {
        entries := entries + [v.value];
        RebuildEnabled();
      }
    }

    method UpdateEntry(id: string, c: Change) returns (ok: bool)
      modifies this`entries, this`enabled
      ensures View() == Apply(rules, old(View()), Update(id, c))
    {
      ok := false;
      if id == "" {
        return;
      }
      var idx := IndexOf(id);
      if idx == -1 {
        return;
      }
      var v := Validated(rules, Changed(entries[idx], c));
      if v.None? {
        return;
      }
      entries := entries[idx := v.value.(failCount := 0)];
      RebuildEnabled();
      ok := true;
    }

    method DeleteEntry(id: string) returns (found: bool)
      modifies this`entries, this`enabled
      ensures View() == Apply(rules, old(View()), Delete(id))
      ensures found <==> id != "" && Known(old(entries), id)
    {
      found := false;
      if id == "" {
        return;
      }
      var next := [];
      for i := 0 to |entries|
        invariant next == Without(entries[..i], id)
        invariant found <==> exists j :: 0 <= j < i && entries[j].id == id
      {
        assert Init(entries[..i + 1]) == entries[..i];
        if entries[i].id == id {
          found := true;
          continue;
        }
        next := next + [entries[i]];
      }
      assert entries[..|entries|] == entries;
      if found {
        entries := next;
        RebuildEnabled();
      }
    }

    method ToggleEntry(id: string) returns (on: bool)
      modifies this`entries, this`enabled
      ensures View() == Apply(rules, old(View()), Toggle(id))
      ensures on <==> Known(old(entries), id) && !old(entries)[Find(old(entries), id)].enabled
    {
      var idx := IndexOf(id);
      if idx == -1 {
        return false;
      }
      entries := entries[idx := entries[idx].(enabled := !entries[idx].enabled)];
      if entries[idx].enabled {
        entries := entries[idx := entries[idx].(failCount := 0)];
      }
      on := entries[idx].enabled;
      assert entries == old(entries)[idx := Toggled(old(entries)[idx])];
      RebuildEnabled();
    }

    method Fail(id: string)
      modifies this`entries, this`enabled
      ensures View() == Apply(rules, old(View()), MarkFailed(id))
    {
      if id == "" {
        return;
      }
      var idx := IndexOf(id);
      if idx == -1 {
        return;
      }
      var fc := entries[idx].failCount + 1;
      entries := entries[idx := entries[idx].(failCount := fc)];
      if fc >= FAIL_THRESHOLD && entries[idx].enabled {
        entries := entries[idx := entries[idx].(enabled := false)];
        assert entries == old(entries)[idx := Failed(old(entries)[idx])];
        RebuildEnabled();
      }
    }

    method Succeed(id: string)
      modifies this`entries
      ensures View() == Apply(rules, old(View()), MarkSuccess(id))
    {
      if id == "" {
        return;
      }
      var idx := IndexOf(id);
      if idx != -1 && entries[idx].failCount != 0 {
        entries := entries[idx := entries[idx].(failCount := 0)];
      }
    }

    /** `incr` is the store's counter value, or an error, in which case the local counter is used. */
    method Next(u: string, incr: SharedCounter.Incr) returns (r: Option<Entry>)
      modifies this`rrIndex
      ensures r == Picked(View(), u, if incr.Value? then incr.v else old(rrIndex) + 1)
      ensures rrIndex == if incr.Error? && r.Some? then old(rrIndex) + 1 else old(rrIndex)
    {
      var scoped := [];
      for i := 0 to |enabled|
        invariant scoped == Scoped(enabled[..i], u)
      {
        assert Init(enabled[..i + 1]) == enabled[..i];
        if AppliesTo(enabled[i].upstreams, u) {
          scoped := scoped + [enabled[i]];
        }
      }
      assert enabled[..|enabled|] == enabled;
      if |scoped| == 0 {
        return None;
      }
      var v;
      if incr.Value? {
        v := incr.v;
      } else {
        rrIndex := rrIndex + 1;
        v := rrIndex;
      }
      r := Some(scoped[SharedCounter.IndexFor(v, |scoped|)]);
    }
  }

  // ----- Runs -----

  function Run(rules: Rules, ops: seq<Op>): Pool
  {
    if ops == [] then EMPTY else Apply(rules, Run(rules, Init(ops)), Last(ops))
  }

  /** Entries without their failure counters. */
  function Routes(es: seq<Entry>): (r: seq<Entry>)
    ensures |r| == |es|
  {
    if es == [] then [] else Routes(Init(es)) + [Last(es).(failCount := 0)]
  }

  /** The derived list agrees with the filter in order, id, routing fields and scope, every enabled entry
      is below the failure threshold, and scopes are never empty. */
  ghost predicate Coherent(p: Pool)
  {
    && Routes(p.enabled) == Routes(EnabledOf(p.entries))
    && (forall i :: 0 <= i < |p.entries| && p.entries[i].enabled ==> p.entries[i].failCount < FAIL_THRESHOLD)
    && (forall i :: 0 <= i < |p.entries| ==> p.entries[i].upstreams != [])
  }

  /** Changing only a counter does not change the filter's routes. */
  lemma {:induction false} CounterOnly(es: seq<Entry>, i: nat, e: Entry)
    requires i < |es| && e == es[i].(failCount := e.failCount)
    ensures Routes(EnabledOf(es[i := e])) == Routes(EnabledOf(es))
  {
    var es' := es[i := e];
    if i == |es| - 1 {
      assert Init(es') == Init(es);
      RoutesSnoc(EnabledOf(Init(es)), e);
      RoutesSnoc(EnabledOf(Init(es)), Last(es));
    } else {
      assert Init(es') == Init(es)[i := e];
      CounterOnly(Init(es), i, e);
      RoutesSnoc(EnabledOf(Init(es')), Last(es));
      RoutesSnoc(EnabledOf(Init(es)), Last(es));
    }
    assert EnabledOf(es) == EnabledOf(Init(es)) + (if Last(es).enabled then [Last(es)] else []);
  }

  lemma RoutesSnoc(es: seq<Entry>, e: Entry)
    ensures Routes(es + [e]) == Routes(es) + [e.(failCount := 0)]
    ensures es + [] == es
  {
    assert Init(es + [e]) == es;
  }

  lemma {:induction false} WithoutFrom(es: seq<Entry>, id: string)
    ensures forall e :: e in Without(es, id) <==> e in es && e.id != id
  {
    if es != [] {
      WithoutFrom(Init(es), id);
      assert es == Init(es) + [Last(es)];
    }
  }

  ghost predicate GoodEntry(e: Entry) {
    (e.enabled ==> e.failCount < FAIL_THRESHOLD) && e.upstreams != []
  }

  /** Replacing one entry and rebuilding. */
  lemma ReplacedCoherent(p: Pool, i: nat, e: Entry)
    requires Coherent(p) && i < |p.entries| && GoodEntry(e)
    ensures Coherent(Rebuilt(p.entries[i := e]))
  {
  }

  lemma AddedCoherent(p: Pool, e: Entry)
    requires Coherent(p) && GoodEntry(e)
    ensures Coherent(Rebuilt(p.entries + [e]))
  {
  }

  lemma DeletedCoherent(p: Pool, id: string)
    requires Coherent(p)
    ensures Coherent(Rebuilt(Without(p.entries, id)))
  {
    WithoutFrom(p.entries, id);
    var es := Without(p.entries, id);
    forall j | 0 <= j < |es|
      ensures GoodEntry(es[j])
    {
      assert es[j] in es;
    }
  }

  /** Changing a counter without rebuilding. */
  lemma CountedCoherent(p: Pool, i: nat, e: Entry)
    requires Coherent(p) && i < |p.entries| && e == p.entries[i].(failCount := e.failCount) && GoodEntry(e)
    ensures Coherent(p.(entries := p.entries[i := e]))
  {
    CounterOnly(p.entries, i, e);
  }

  lemma StepCoherent(rules: Rules, p: Pool, op: Op)
    requires Coherent(p)
    ensures Coherent(Apply(rules, p, op))
  {
    var i := Find(p.entries, op.id);
    match op {
      case Add(id, fields, on, upstreams) =>
        var v := Validated(rules, Entry(id, fields, on, upstreams, 0));
        if v.Some? {
          AddedCoherent(p, v.value);
        }
      case Update(id, c) =>
        if i < |p.entries| {
          var v := Validated(rules, Changed(p.entries[i], c));
          if v.Some? {
            ReplacedCoherent(p, i, v.value.(failCount := 0));
          }
        }
      case Delete(id) =>
        DeletedCoherent(p, id);
      case Toggle(id) =>
        if i < |p.entries| {
          ReplacedCoherent(p, i, Toggled(p.entries[i]));
        }
      case MarkFailed(id) =>
        if i < |p.entries| {
          var e := Failed(p.entries[i]);
          ReplacedCoherent(p, i, e);
          if p.entries[i].enabled == e.enabled {
            CountedCoherent(p, i, e);
          }
        }
      case MarkSuccess(id) =>
        if i < |p.entries| {
          CountedCoherent(p, i, p.entries[i].(failCount := 0));
        }
    }
  }

  /** After every run of pool operations the derived list and the counters are coherent. */
  lemma {:induction false} RunCoherent(rules: Rules, ops: seq<Op>)
    ensures Coherent(Run(rules, ops))
  {
    if ops != [] {
      RunCoherent(rules, Init(ops));
      StepCoherent(rules, Run(rules, Init(ops)), Last(ops));
    }
  }

  lemma {:induction false} RouteIn(es: seq<Entry>, e: Entry)
    ensures e in es ==> e.(failCount := 0) in Routes(es)
    ensures e in Routes(es) ==> exists i :: 0 <= i < |es| && es[i].(failCount := 0) == e
  {
    if es != [] {
      RouteIn(Init(es), e);
      if exists i :: 0 <= i < |Init(es)| && Init(es)[i].(failCount := 0) == e {
        var i :| 0 <= i < |Init(es)| && Init(es)[i].(failCount := 0) == e;
        assert es[i].(failCount := 0) == e;
      }
    }
  }

  lemma {:induction false} EnabledFrom(es: seq<Entry>, e: Entry)
    ensures e in EnabledOf(es) <==> e in es && e.enabled
  {
    if es != [] {
      EnabledFrom(Init(es), e);
      assert es == Init(es) + [Last(es)];
    }
  }

  lemma {:induction false} ScopedFrom(es: seq<Entry>, u: string)
    ensures forall e :: e in Scoped(es, u) <==> e in es && AppliesTo(e.upstreams, u)
  {
    if es != [] {
      ScopedFrom(Init(es), u);
      assert es == Init(es) + [Last(es)];
    }
  }

  /** Entry `i` may serve the upstream. */
  predicate Usable(p: Pool, u: string, i: nat) {
    i < |p.entries| && p.entries[i].enabled && AppliesTo(p.entries[i].upstreams, u)
  }

  lemma RouteOfEnabled(p: Pool, e: Entry)
    requires Coherent(p) && e in p.enabled
    ensures exists i :: 0 <= i < |p.entries| && p.entries[i].enabled && p.entries[i].(failCount := 0) == e.(failCount := 0)
  {
    var route := e.(failCount := 0);
    RouteIn(p.enabled, e);
    RouteIn(EnabledOf(p.entries), route);
    var k :| 0 <= k < |EnabledOf(p.entries)| && EnabledOf(p.entries)[k].(failCount := 0) == route;
    EnabledFrom(p.entries, EnabledOf(p.entries)[k]);
    var i :| 0 <= i < |p.entries| && p.entries[i] == EnabledOf(p.entries)[k];
  }

  lemma EnabledHasRoute(p: Pool, i: nat)
    requires Coherent(p) && i < |p.entries| && p.entries[i].enabled
    ensures exists j :: 0 <= j < |p.enabled| && p.enabled[j].(failCount := 0) == p.entries[i].(failCount := 0)
  {
    EnabledFrom(p.entries, p.entries[i]);
    RouteIn(EnabledOf(p.entries), p.entries[i]);
    RouteIn(p.enabled, p.entries[i].(failCount := 0));
  }

  /** Next returns only entries that are enabled in the pool, below the failure threshold and whose scope
      covers the upstream, and it fails exactly when there is none. */
  lemma PickIsSound(rules: Rules, ops: seq<Op>, u: string, v: int)
    ensures var p := Run(rules, ops); var r := Picked(p, u, v);
            && (r.Some? ==> exists i: nat :: Usable(p, u, i) && p.entries[i].failCount < FAIL_THRESHOLD
                              && p.entries[i].(failCount := 0) == r.value.(failCount := 0))
            && (r.None? <==> forall i: nat :: !Usable(p, u, i))
  {
    var p := Run(rules, ops);
    var r := Picked(p, u, v);
    RunCoherent(rules, ops);
    ScopedFrom(p.enabled, u);
    if r.Some? {
      assert r.value in Scoped(p.enabled, u);
      RouteOfEnabled(p, r.value);
      var i :| 0 <= i < |p.entries| && p.entries[i].enabled && p.entries[i].(failCount := 0) == r.value.(failCount := 0);
      assert Usable(p, u, i);
    }
    forall i: nat | Usable(p, u, i)
      ensures r.Some?
    {
      EnabledHasRoute(p, i);
      var j :| 0 <= j < |p.enabled| && p.enabled[j].(failCount := 0) == p.entries[i].(failCount := 0);
      assert p.enabled[j] in Scoped(p.enabled, u);
    }
  }

  // ----- Consecutive failures -----

  ghost predicate DistinctIds(es: seq<Entry>) {
    forall i, j :: 0 <= i < j < |es| ==> es[i].id != es[j].id
  }

  /** Every added id is new to the pool. */
  ghost predicate FreshIds(rules: Rules, ops: seq<Op>)
  {
    ops == [] ||
    (FreshIds(rules, Init(ops)) && (Last(ops).Add? ==> Last(ops).id != "" && !Known(Run(rules, Init(ops)).entries, Last(ops).id)))
  }

  /** Successes and operator actions that give an entry a clean slate. */
  predicate Resets(rules: Rules, p: Pool, op: Op, id: string)
  {
    op.id == id &&
    match op
    case Add(_, _, _, _) => true
    case Update(_, c) => Known(p.entries, id) && Validated(rules, Changed(p.entries[Find(p.entries, id)], c)).Some?
    case Toggle(_) => Known(p.entries, id) && !p.entries[Find(p.entries, id)].enabled
    case MarkSuccess(_) => true
    case Delete(_) => false
    case MarkFailed(_) => false
  }

  /** Failures reported for an entry since its last clean slate. */
  function Streak(rules: Rules, ops: seq<Op>, id: string): nat
  {
    if ops == [] then 0
    else
      var before := Streak(rules, Init(ops), id);
      if Resets(rules, Run(rules, Init(ops)), Last(ops), id) then 0
      else if Last(ops) == MarkFailed(id) then before + 1
      else before
  }

  ghost predicate CountsStreaks(rules: Rules, ops: seq<Op>, es: seq<Entry>)
  {
    DistinctIds(es) && forall i :: 0 <= i < |es| ==> es[i].id != "" && es[i].failCount == Streak(rules, ops, es[i].id)
  }

  lemma {:induction false} WithoutDistinct(es: seq<Entry>, id: string)
    requires DistinctIds(es)
    ensures DistinctIds(Without(es, id))
  {
    if es != [] {
      WithoutDistinct(Init(es), id);
      WithoutFrom(Init(es), id);
      var front := Without(Init(es), id);
      forall j | 0 <= j < |front|
        ensures front[j].id != Last(es).id
      {
        assert front[j] in front;
        var k :| 0 <= k < |Init(es)| && Init(es)[k] == front[j];
        assert es[k].id != es[|es| - 1].id;
      }
    }
  }

  lemma FindUnique(es: seq<Entry>, i: nat)
    requires DistinctIds(es) && i < |es|
    ensures Find(es, es[i].id) == i
  {
  }

  /** The counter of every entry is its streak of failures. */
  lemma {:induction false} CountersAreStreaks(rules: Rules, ops: seq<Op>)
    requires FreshIds(rules, ops)
    ensures CountsStreaks(rules, ops, Run(rules, ops).entries)
  {
    if ops != [] {
      CountersAreStreaks(rules, Init(ops));
      var p := Run(rules, Init(ops));
      var op := Last(ops);
      var q := Run(rules, ops);
      match op {
        case Delete(id) =>
          WithoutDistinct(p.entries, id);
          WithoutFrom(p.entries, id);
          forall i | 0 <= i < |q.entries|
            ensures q.entries[i].id != "" && q.entries[i].failCount == Streak(rules, ops, q.entries[i].id)
          {
            assert q.entries[i] in q.entries;
            var k :| 0 <= k < |p.entries| && p.entries[k] == q.entries[i];
          }
        case _ =>
          StreakStep(rules, ops);
      }
    }
  }

  lemma StreakStep(rules: Rules, ops: seq<Op>)
    requires ops != [] && FreshIds(rules, ops) && !Last(ops).Delete?
    requires CountsStreaks(rules, Init(ops), Run(rules, Init(ops)).entries)
    ensures CountsStreaks(rules, ops, Run(rules, ops).entries)
  {
    var p := Run(rules, Init(ops));
    var op := Last(ops);
    var q := Run(rules, ops);
    var f := Find(p.entries, op.id);
    forall i | 0 <= i < |p.entries| && i != f
      ensures p.entries[i].id != op.id
    {
      if p.entries[i].id == op.id {
        FindUnique(p.entries, i);
      }
    }
    forall i | 0 <= i < |q.entries|
      ensures q.entries[i].id != "" && q.entries[i].failCount == Streak(rules, ops, q.entries[i].id)
    {
      if i < |p.entries| {
        assert q.entries[i].id == p.entries[i].id;
      }
    }
  }

  /** Auto-disable happens exactly at the fifth failure with no success or operator reset in between. */
  lemma DisabledAtFifthFailure(rules: Rules, ops: seq<Op>, id: string)
    requires ops != [] && FreshIds(rules, ops) && Last(ops) == MarkFailed(id)
    requires var p := Run(rules, Init(ops)); Known(p.entries, id) && p.entries[Find(p.entries, id)].enabled
    ensures var p := Run(rules, Init(ops)); var i := Find(p.entries, id); var q := Run(rules, ops);
            && |q.entries| == |p.entries|
            && (!q.entries[i].enabled <==> Streak(rules, ops, id) == 5)
  {
    CountersAreStreaks(rules, Init(ops));
    RunCoherent(rules, Init(ops));
  }
}
