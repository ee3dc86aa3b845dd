/** The life of one proxy entry, read off the operations alone: what the pool lists for an id after any run. */
module ProxyEntries {
  import opened Prelude
  import opened ProxyPool
  import SharedCounter

  // ----- One entry -----

  /** An entry as the pool accepts it: tidied fields, a canonical scope of known upstreams. */
  function Admitted(rules: Rules, e: Entry): Option<Entry>
  {
    var fields := rules.tidy(e.fields);
    var scope := Normalised(rules.canon, e.upstreams);
    if rules.valid(fields) && (forall u :: u in scope ==> u in {"all", "grok", "codebuddy"})
    then Some(Entry(e.id, fields, e.enabled, scope, e.failCount)) else None
  }

  /** Blank protocol, host and port, a masked password and an absent scope keep what is there. */
  function Edited(e: Entry, c: Change): Entry
  {
    Entry(e.id,
          Fields(if c.fields.protocol == "" then e.fields.protocol else c.fields.protocol,
                 if c.fields.host == "" then e.fields.host else c.fields.host,
                 if c.fields.port == 0 then e.fields.port else c.fields.port,
                 c.fields.username,
                 if c.fields.password == "***" then e.fields.password else c.fields.password,
                 c.fields.caption),
          c.enabled,
          match c.upstreams case None => e.upstreams case Some(us) => us,
          0)
  }

  /** What one operation makes of the entry of an id. */
  function After(rules: Rules, id: string, st: Option<Entry>, op: Op): Option<Entry>
  {
    if op.id != id then st
    else if op.Add? then
      var v := Admitted(rules, Entry(id, op.fields, op.on, op.upstreams, 0));
      if v.Some? then v else st
    else if st.None? then None
    else
      var e := st.value;
      match op
      case Update(_, c) =>
        var v := Admitted(rules, Edited(e, c));
        if v.Some? then v else st
      case Delete(_) => None
      case Toggle(_) =>
        Some(if e.enabled then e.(enabled := false) else e.(enabled := true, failCount := 0))
      case MarkFailed(_) =>
        Some(e.(failCount := e.failCount + 1, enabled := e.enabled && e.failCount + 1 < 5))
      case MarkSuccess(_) => Some(e.(failCount := 0))
      case Add(_, _, _, _) => st
  }

  function EntryAfter(rules: Rules, id: string, ops: seq<Op>): Option<Entry>
  {
    if ops == [] then None else After(rules, id, EntryAfter(rules, id, Init(ops)), Last(ops))
  }

  // ----- The pool lists exactly these -----

  function Listed(es: seq<Entry>, id: string): Option<Entry>
  {
    if Find(es, id) < |es| then Some(es[Find(es, id)]) else None
  }

  lemma AdmittedIs(rules: Rules, e: Entry)
    ensures Admitted(rules, e) == Validated(rules, e)
  {
  }

  lemma {:induction false} ListedSnoc(es: seq<Entry>, e: Entry, id: string)
    requires !Known(es, e.id)
    ensures Listed(es + [e], id) == if id == e.id then Some(e) else Listed(es, id)
  {
    if es == [] {
      assert [e][1..] == [];
      assert es + [e] == [e];
    } else {
      assert (es + [e])[1..] == es[1..] + [e] && (es + [e])[0] == es[0];
      ListedSnoc(es[1..], e, id);
    }
  }

  lemma {:induction false} ListedReplaced(es: seq<Entry>, i: nat, e: Entry, id: string)
    requires i < |es| && Find(es, e.id) == i
    ensures Listed(es[i := e], id) == if id == e.id then Some(e) else Listed(es, id)
  {
    var r := es[i := e];
    if i == 0 {
      assert r[1..] == es[1..];
    } else {
      assert r[1..] == es[1..][i - 1 := e] && r[0] == es[0];
      ListedReplaced(es[1..], i - 1, e, id);
    }
  }

  lemma ListedInvariant(es: seq<Entry>, id: string)
    requires DistinctIds(es)
    ensures forall i :: 0 <= i < |es| && es[i].id == id ==> Listed(es, id) == Some(es[i])
    ensures (forall i :: 0 <= i < |es| ==> es[i].id != id) ==> Listed(es, id) == None
  {
    forall i | 0 <= i < |es| && es[i].id == id
      ensures Listed(es, id) == Some(es[i])
    {
      FindUnique(es, i);
    }
  }

  lemma ListedWithout(es: seq<Entry>, gone: string, id: string)
    requires DistinctIds(es)
    ensures Listed(Without(es, gone), id) == if id == gone then None else Listed(es, id)
  {
    var r := Without(es, gone);
    WithoutDistinct(es, gone);
    WithoutFrom(es, gone);
    ListedInvariant(r, id);
    ListedInvariant(es, id);
    if i :| 0 <= i < |r| && r[i].id == id {
      assert r[i] in r;
      var j :| 0 <= j < |es| && es[j] == r[i];
    } else if id != gone {
      forall j | 0 <= j < |es|
        ensures es[j].id != id
      {
        assert es[j] in es;
      }
    }
  }

  lemma StepLists(rules: Rules, p: Pool, op: Op, id: string)
    requires DistinctIds(p.entries) && (op.Add? ==> op.id != "" && !Known(p.entries, op.id))
    requires Listed(p.entries, "") == None && (forall i :: 0 <= i < |p.entries| ==> p.entries[i].id != "")
    ensures Listed(Apply(rules, p, op).entries, id) == After(rules, id, Listed(p.entries, id), op)
  {
    var i := Find(p.entries, op.id);
    match op {
      case Add(_, fields, on, upstreams) =>
        var e := Entry(op.id, fields, on, upstreams, 0);
        AdmittedIs(rules, e);
        if Validated(rules, e).Some? {
          ListedSnoc(p.entries, Validated(rules, e).value, id);
        }
      case Update(_, c) =>
        if i < |p.entries| {
          AdmittedIs(rules, Edited(p.entries[i], c));
          assert Edited(p.entries[i], c) == Changed(p.entries[i], c).(failCount := 0);
          var v := Validated(rules, Changed(p.entries[i], c));
          if v.Some? {
            ListedReplaced(p.entries, i, v.value.(failCount := 0), id);
          }
        }
      case Delete(_) =>
        ListedWithout(p.entries, op.id, id);
      case Toggle(_) =>
        if i < |p.entries| {
          ListedReplaced(p.entries, i, Toggled(p.entries[i]), id);
        }
      case MarkFailed(_) =>
        if i < |p.entries| {
          ListedReplaced(p.entries, i, Failed(p.entries[i]), id);
        }
      case MarkSuccess(_) =>
        if i < |p.entries| {
          ListedReplaced(p.entries, i, p.entries[i].(failCount := 0), id);
        }
    }
  }

  /** After every run with fresh ids the pool lists for each id exactly the entry its own operations make:
      fields, scope, switch and failures. */
  lemma {:induction false} PoolLists(rules: Rules, ops: seq<Op>, id: string)
    requires FreshIds(rules, ops)
    ensures Listed(Run(rules, ops).entries, id) == EntryAfter(rules, id, ops)
  {
    if ops != [] {
      PoolLists(rules, Init(ops), id);
      CountersAreStreaks(rules, Init(ops));
      var p := Run(rules, Init(ops));
      ListedInvariant(p.entries, "");
      StepLists(rules, p, Last(ops), id);
    }
  }

  // ----- Order -----

  function Ids(es: seq<Entry>): (r: seq<string>)
    ensures |r| == |es| && forall i :: 0 <= i < |es| ==> r[i] == es[i].id
  {
    seq(|es|, i requires 0 <= i < |es| => es[i].id)
  }

  /** New entries go to the end; nothing but a deletion changes the order. */
  lemma OrderIsKept(rules: Rules, p: Pool, op: Op)
    ensures var before := Ids(p.entries); var after := Ids(Apply(rules, p, op).entries);
            !op.Delete? ==> after == before || (op.Add? && after == before + [op.id])
  {
  }

  // ----- Scopes and picks -----

  /** The enabled entries that serve an upstream, in list order. */
  function Candidates(es: seq<Entry>, u: string): seq<Entry>
  {
    if es == [] then []
    else
      var scope := es[0].upstreams;
      (if scope == [] || "all" in scope || u in scope then [es[0]] else []) + Candidates(es[1..], u)
  }

  lemma {:induction false} CandidatesSnoc(es: seq<Entry>, e: Entry, u: string)
    ensures Candidates(es + [e], u) ==
            Candidates(es, u) + (if e.upstreams == [] || "all" in e.upstreams || u in e.upstreams then [e] else [])
  {
    var more := if e.upstreams == [] || "all" in e.upstreams || u in e.upstreams then [e] else [];
    if es == [] {
      assert [e][1..] == [] && es + [e] == [e] && more + [] == more && [] + more == more;
    } else {
      assert (es + [e])[1..] == es[1..] + [e] && (es + [e])[0] == es[0];
      CandidatesSnoc(es[1..], e, u);
      var s := es[0].upstreams;
      Associative(if s == [] || "all" in s || u in s then [es[0]] else [], Candidates(es[1..], u), more);
    }
  }

  lemma {:induction false} ScopedIsCandidates(es: seq<Entry>, u: string)
    ensures Scoped(es, u) == Candidates(es, u)
  {
    if es != [] {
      ScopedIsCandidates(Init(es), u);
      CandidatesSnoc(Init(es), Last(es), u);
      assert Init(es) + [Last(es)] == es;
    }
  }

  /** The pick for counter value v is the candidate at position (v - 1) modulo their number. */
  lemma PickedMeans(p: Pool, u: string, v: int)
    ensures var cs := Candidates(p.enabled, u);
            Picked(p, u, v) == if cs == [] then None else Some(cs[(v - 1) % |cs|])
  {
    ScopedIsCandidates(p.enabled, u);
    var cs := Candidates(p.enabled, u);
    if cs != [] {
      SharedCounter.IndexMeans(v, |cs|);
    }
  }

  lemma {:induction false} ValuesDistinct(canon: string -> string, names: seq<string>)
    ensures forall i, j :: 0 <= i < j < |Values(canon, names)| ==> Values(canon, names)[i] != Values(canon, names)[j]
  {
    if names != [] {
      ValuesDistinct(canon, Init(names));
    }
  }

  /** A normalised scope: just "all" when that was listed or nothing usable was; otherwise the listed values, none
      blank and none twice. */
  lemma NormalisedMeans(canon: string -> string, names: seq<string>)
    ensures var r := Normalised(canon, names);
            && (forall i, j :: 0 <= i < j < |r| ==> r[i] != r[j])
            && ("all" in r ==> r == ["all"])
            && (forall v :: v in r && v != "all" ==> v != "" && exists i :: 0 <= i < |names| && canon(names[i]) == v)
            && (r == ["all"] <==> (exists i :: 0 <= i < |names| && canon(names[i]) == "all")
                                  || forall i :: 0 <= i < |names| ==> canon(names[i]) == "")
            && (r != ["all"] ==> forall i :: 0 <= i < |names| && canon(names[i]) != "" ==> canon(names[i]) in r)
  {
    var vs := Values(canon, names);
    ValuesDistinct(canon, names);
    ValuesAre(canon, names, "all");
    forall v
      ensures v in vs <==> v != "" && exists i :: 0 <= i < |names| && canon(names[i]) == v
    {
      ValuesAre(canon, names, v);
    }
    forall i | 0 <= i < |names| && canon(names[i]) != ""
      ensures canon(names[i]) in vs
    {
      ValuesAre(canon, names, canon(names[i]));
    }
    if vs != [] {
      assert vs[0] in vs;
    }
  }
}
