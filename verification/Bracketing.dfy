/** The stream writer emits a bracketed message exactly on orderly input. */
module Bracketing {
  import opened Prelude
  import opened Sse
  import opened Stream
  import opened Brackets

  // ----- Orderly input, read off the items alone -----

  /** `text`: text was seen; `cut`: a tool call got its name after that; `named`: tool calls
      that have a name; `done`: the terminator was read. */
  datatype Scan = Disorder | Scan(text: bool, cut: bool, named: set<int>, done: bool)

  const QUIET: Scan := Scan(false, false, {}, false)

  function ScanText(sc: Scan, content: string): Scan
  {
    if sc.Disorder? || content == "" then sc
    else if sc.done || sc.cut then Disorder
    else sc.(text := true)
  }

  function ScanFragment(sc: Scan, f: Fragment): Scan
  {
    if sc.Disorder? then sc
    else
      var opens := f.name != "" && f.index !in sc.named;
      var named := if opens then sc.named + {f.index} else sc.named;
      if sc.done && (opens || (f.args != "" && f.index in named)) then Disorder
      else sc.(named := named, cut := sc.cut || (opens && sc.text))
  }

  function ScanFragments(sc: Scan, fs: seq<Fragment>): Scan
  {
    if fs == [] then sc else ScanFragment(ScanFragments(sc, Init(fs)), Last(fs))
  }

  function ScanItem(sc: Scan, item: Item): Scan
  {
    match item
    case Skip => sc
    case Done => if sc.Disorder? then sc else sc.(done := true)
    case Data(c) =>
      if c.choices == [] then sc else ScanFragments(ScanText(sc, c.choices[0].content), c.choices[0].tools)
  }

  function ScanRun(items: seq<Item>): Scan
  {
    if items == [] then QUIET else ScanItem(ScanRun(Init(items)), Last(items))
  }

  /** No text after a tool call opened behind earlier text, and nothing to emit after the terminator. */
  predicate Orderly(items: seq<Item>) {
    ScanRun(items) != Disorder
  }

  // ----- The simulation -----

  function StartedIndices(tools: seq<Tool>): set<nat>
  {
    set i | 0 <= i < |tools| && tools[i].started :: i + 1
  }

  predicate IsNamed(tools: seq<Tool>, k: int) {
    Find(tools, k) < |tools| && tools[Find(tools, k)].started
  }

  ghost predicate ToolsMatch(tools: seq<Tool>, named: set<int>)
  {
    && (forall i :: 0 <= i < |tools| ==> tools[i].started == (tools[i].name != ""))
    && (forall k :: k in named <==> IsNamed(tools, k))
  }

  function Expected(s: State): Verdict
  {
    if !s.started then EMPTY
    else
      var tools := StartedIndices(s.tools);
      Good(Body,
           (if s.textOpen then {0} else {}) + tools,
           (if s.textOpen && !s.textClosed then {0} else {}) + tools,
           if s.textClosed then 0 else -1)
  }

  ghost predicate Matches(s: State, sc: Scan)
  {
    if sc.Disorder? then Judge(s.out).Bad?
    else
      && ToolsMatch(s.tools, sc.named)
      && s.stopped == sc.done
      && if sc.done then s.started && Judge(s.out).Good? && Judge(s.out).phase.Closed?
         else
           && Judge(s.out) == Expected(s)
           && s.textOpen == sc.text && s.textClosed == sc.cut && (sc.cut ==> sc.text)
           && (!s.started ==> !s.textOpen && s.tools == [])
           && (forall i :: 0 <= i < |s.tools| ==> !s.tools[i].closed)
  }

  // ----- Output only grows, so a bad verdict is final -----

  ghost predicate Grows(s: State, t: State) {
    s.out <= t.out
  }

  lemma {:induction false} FragmentsGrow(s: State, fs: seq<Fragment>)
    ensures Grows(s, StepFragments(s, fs))
  {
    if fs != [] {
      FragmentsGrow(s, Init(fs));
    }
  }

  lemma {:induction false} CloseToolsGrow(s: State, n: nat)
    requires n <= |s.tools|
    ensures Grows(s, CloseTools(s, n))
  {
    if n > 0 {
      CloseToolsGrow(s, n - 1);
    }
  }

  lemma FinalizeGrows(s: State)
    ensures Grows(s, Finalize(s))
  {
    if !s.stopped {
      var s1 := CloseText(EnsureShell(s).(stopped := true));
      CloseToolsGrow(s1, |s1.tools|);
    }
  }

  lemma BadIsFinal(s: State, t: State)
    requires Grows(s, t) && Judge(s.out).Bad?
    ensures Judge(t.out).Bad?
  {
    var more := t.out[|s.out|..];
    assert t.out == s.out + more;
    JudgePrefix(s.out, more, |s.out|);
    BadStaysBad(t.out, |s.out|, |t.out|);
  }

  // ----- Each step keeps the simulation -----

  lemma EmitVerdict(s: State, e: Event)
    ensures Judge(Emit(s, e).out) == Judge1(Judge(s.out), e)
  {
    JudgeSnoc(s.out, e);
  }

  lemma StartMatches(s: State, sc: Scan)
    requires Matches(s, sc) && !sc.Disorder?
    ensures Matches(EnsureStart(s), sc) && EnsureStart(s).started
  {
    EmitVerdict(s.(started := true), MessageStart);
    assert StartedIndices([]) == {};
  }

  lemma TextMatches(s: State, sc: Scan, content: string)
    requires Matches(s, sc)
    ensures Matches(StepText(s, content), ScanText(sc, content))
  {
    if sc.Disorder? {
      BadIsFinal(s, StepText(s, content));
    } else if content != "" {
      StartMatches(s, sc);
      var s1 := EnsureStart(s);
      EmitVerdict(s1.(textOpen := true), BlockStart(0, Text));
      var s2 := EnsureText(s1);
      if !sc.done && !s1.textOpen {
        assert 0 !in StartedIndices(s1.tools);
        assert Judge(s2.out) == Expected(s2);
      }
      EmitVerdict(s2.(text := s2.text + content), TextDelta(0, content));
      assert sc.done ==> Judge(StepText(s, content).out).Bad?;
    }
  }

  /** Changing or appending the block of one key leaves the other keys alone. */
  ghost predicate OneReplaced(tools: seq<Tool>, r: seq<Tool>, key: int)
  {
    var i := Find(tools, key);
    && |r| == (if i < |tools| then |tools| else i + 1)
    && r[i].key == key && forall j :: 0 <= j < |tools| && j != i ==> r[j] == tools[j]
  }

  lemma NamedAgain(tools: seq<Tool>, r: seq<Tool>, key: int, k: int)
    requires OneReplaced(tools, r, key) && k != key
    ensures IsNamed(r, k) <==> IsNamed(tools, k)
  {
    var j, j' := Find(tools, k), Find(r, k);
    if j < |tools| {
      assert r[j] == tools[j];
      assert j' == j;
    }
  }

  lemma FindAgain(tools: seq<Tool>, r: seq<Tool>, key: int)
    requires OneReplaced(tools, r, key)
    ensures Find(r, key) == Find(tools, key)
    ensures forall k :: k != key ==> (IsNamed(r, k) <==> IsNamed(tools, k))
  {
    forall k | k != key
      ensures IsNamed(r, k) <==> IsNamed(tools, k)
    {
      NamedAgain(tools, r, key, k);
    }
  }

  /** What registering a fragment, and opening its block if it now has a name, does to the blocks. */
  lemma RegisterMatches(tools: seq<Tool>, named: set<int>, f: Fragment)
    requires ToolsMatch(tools, named)
    ensures var r := Register(tools, f); var i := Find(tools, f.index);
            && (r[i].started <==> f.index in named)
            && (r[i].name != "" <==> f.index in named || f.name != "")
            && ToolsMatch(r[i := r[i].(started := r[i].name != "")],
                          if f.name != "" then named + {f.index} else named)
  {
    var r := Register(tools, f);
    var i := Find(tools, f.index);
    var o := r[i := r[i].(started := r[i].name != "")];
    FindAgain(tools, o, f.index);
    var named' := if f.name != "" then named + {f.index} else named;
    assert f.index in named <==> IsNamed(tools, f.index);
    forall k
      ensures k in named' <==> IsNamed(o, k)
    {
      if k != f.index {
        assert k in named <==> IsNamed(tools, k);
      }
    }
  }

  lemma RegisterKeepsStarted(tools: seq<Tool>, f: Fragment)
    ensures StartedIndices(Register(tools, f)) == StartedIndices(tools)
  {
    var r := Register(tools, f);
    forall x
      ensures x in StartedIndices(r) <==> x in StartedIndices(tools)
    {
      if x in StartedIndices(r) {
        assert r[x - 1].started;
      }
      if x in StartedIndices(tools) {
        assert r[x - 1].started;
      }
    }
  }

  lemma StartedIndicesUpdate(tools: seq<Tool>, i: nat)
    requires i < |tools|
    ensures StartedIndices(tools[i := tools[i].(started := true)]) == StartedIndices(tools) + {i + 1}
  {
    var r := tools[i := tools[i].(started := true)];
    forall x
      ensures x in StartedIndices(r) <==> x in StartedIndices(tools) + {i + 1}
    {
      if x in StartedIndices(tools) {
        assert r[x - 1].started;
      }
      assert r[i].started;
      if x in StartedIndices(r) && x != i + 1 {
        assert tools[x - 1].started;
      }
    }
  }

  /** Opening the block of a named, unopened tool call. */
  lemma OpenMatches(s: State, i: nat)
    requires i < |s.tools| && !s.tools[i].started && s.tools[i].name != ""
    requires s.started && Judge(s.out) == Expected(s) && (s.textClosed ==> s.textOpen)
    ensures var t := OpenTool(s, i);
            Judge(t.out) == Expected(t)
            && t == s.(textClosed := s.textOpen, tools := t.tools, out := t.out)
            && t.tools == s.tools[i := s.tools[i].(started := true)]
  {
    EmitVerdict(s.(textClosed := true), BlockStop(0));
    var s1 := CloseText(s);
    assert 0 !in StartedIndices(s.tools);
    assert Judge(s1.out) == Expected(s1);
    var t := s.tools[i];
    EmitVerdict(s1.(tools := s1.tools[i := t.(started := true)]), BlockStart(i + 1, ToolUse(t.id, t.name)));
    StartedIndicesUpdate(s.tools, i);
    assert i + 1 !in StartedIndices(s.tools);
  }

  /** The blocks after a fragment, whether or not it opens its block. */
  lemma FragmentTools(s: State, sc: Scan, f: Fragment)
    requires !sc.Disorder? && ToolsMatch(s.tools, sc.named) && s.started
    ensures var i := Find(s.tools, f.index);
            var s2 := s.(tools := Register(s.tools, f)); var s3 := OpenTool(s2, i);
            var opens := f.name != "" && f.index !in sc.named;
            var named := if opens then sc.named + {f.index} else sc.named;
            && (opens <==> !s2.tools[i].started && s2.tools[i].name != "")
            && (f.index in named <==> s3.tools[i].started)
            && ToolsMatch(s3.tools, named)
            && StepFragment(s, f) ==
               (if f.args != "" && f.index in named then Emit(s3, ArgsDelta(i + 1, f.args)) else s3)
  {
    RegisterMatches(s.tools, sc.named, f);
    var i := Find(s.tools, f.index);
    var r := Register(s.tools, f);
    var opens := f.name != "" && f.index !in sc.named;
    var named := if opens then sc.named + {f.index} else sc.named;
    assert named == if f.name != "" then sc.named + {f.index} else sc.named;
    assert OpenTool(s.(tools := r), i).tools == r[i := r[i].(started := r[i].name != "")];
  }

  lemma FragmentAfterDone(s: State, sc: Scan, f: Fragment)
    requires Matches(s, sc) && !sc.Disorder? && sc.done
    ensures Matches(StepFragment(s, f), ScanFragment(sc, f))
  {
    FragmentTools(s, sc, f);
    var t := StepFragment(s, f);
    if |t.out| > |s.out| {
      EmittedAfterEnd(s, t);
    }
  }

  lemma ArgsVerdict(s: State, i: nat, json: string)
    requires s.started && Judge(s.out) == Expected(s) && i < |s.tools| && s.tools[i].started
    ensures Judge(Emit(s, ArgsDelta(i + 1, json)).out) == Expected(s)
  {
    EmitVerdict(s, ArgsDelta(i + 1, json));
    assert i + 1 in StartedIndices(s.tools);
  }

  /** Registering and opening, while the message is still being written. */
  lemma OpenedVerdict(s: State, sc: Scan, f: Fragment)
    requires Matches(s, sc) && !sc.Disorder? && !sc.done && s.started
    ensures var s3 := OpenTool(s.(tools := Register(s.tools, f)), Find(s.tools, f.index));
            && Judge(s3.out) == Expected(s3)
            && s3.textClosed == (sc.cut || (f.name != "" && f.index !in sc.named && sc.text))
            && s3.textOpen == s.textOpen && s3.started && !s3.stopped
            && (forall j :: 0 <= j < |s3.tools| ==> !s3.tools[j].closed)
  {
    FragmentTools(s, sc, f);
    RegisterKeepsStarted(s.tools, f);
    var s2 := s.(tools := Register(s.tools, f));
    assert Judge(s2.out) == Expected(s2);
    if f.name != "" && f.index !in sc.named {
      OpenMatches(s2, Find(s.tools, f.index));
    }
  }

  lemma FragmentBeforeDone(s: State, sc: Scan, f: Fragment)
    requires Matches(s, sc) && !sc.Disorder? && !sc.done && s.started
    ensures Matches(StepFragment(s, f), ScanFragment(sc, f))
  {
    FragmentTools(s, sc, f);
    OpenedVerdict(s, sc, f);
    var i := Find(s.tools, f.index);
    var s3 := OpenTool(s.(tools := Register(s.tools, f)), i);
    if f.args != "" && s3.tools[i].started {
      ArgsVerdict(s3, i, f.args);
      assert Expected(Emit(s3, ArgsDelta(i + 1, f.args))) == Expected(s3);
    }
  }

  lemma FragmentMatches(s: State, sc: Scan, f: Fragment)
    requires Matches(s, sc)
    ensures Matches(StepFragment(s, f), ScanFragment(sc, f))
  {
    if sc.Disorder? {
      BadIsFinal(s, StepFragment(s, f));
    } else if sc.done {
      FragmentAfterDone(s, sc, f);
    } else {
      StartMatches(s, sc);
      FragmentBeforeDone(EnsureStart(s), sc, f);
      StartFirst(s, f);
    }
  }

  /** Any event behind a complete message spoils it. */
  lemma EmittedAfterEnd(s: State, t: State)
    requires Judge(s.out).Good? && Judge(s.out).phase.Closed? && Grows(s, t) && |t.out| > |s.out|
    ensures Judge(t.out).Bad?
  {
    var more := t.out[|s.out|..];
    assert t.out == s.out + more;
    JudgePrefix(s.out, more, |s.out|);
    assert JudgeN(t.out, |s.out| + 1).Bad?;
    BadStaysBad(t.out, |s.out| + 1, |t.out|);
  }

  lemma {:induction false} FragmentsMatch(s: State, sc: Scan, fs: seq<Fragment>)
    requires Matches(s, sc)
    ensures Matches(StepFragments(s, fs), ScanFragments(sc, fs))
  {
    if fs != [] {
      FragmentsMatch(s, sc, Init(fs));
      FragmentMatches(StepFragments(s, Init(fs)), ScanFragments(sc, Init(fs)), Last(fs));
    }
  }

  // ----- Finalisation -----

  function OpenFrom(tools: seq<Tool>, n: nat): set<nat>
  {
    set i | n <= i < |tools| && tools[i].started :: i + 1
  }

  /** Closing in creation order stops the open blocks in ascending index order. */
  lemma {:induction false} CloseToolsVerdict(s: State, n: nat, v: Verdict)
    requires n <= |s.tools|
    requires forall i :: 0 <= i < |s.tools| ==> !s.tools[i].closed
    requires v.Good? && v.phase.Body? && v.open == OpenFrom(s.tools, 0) && v.lastStop <= 0
    requires Judge(s.out) == v
    ensures var r := CloseTools(s, n); var w := Judge(r.out);
            && w.Good? && w.phase.Body? && w.lastStop <= n && w.open == OpenFrom(s.tools, n)
            && (forall i :: n <= i < |s.tools| ==> r.tools[i] == s.tools[i])
            && (forall i :: 0 <= i < |s.tools| ==> r.tools[i] == s.tools[i].(closed := r.tools[i].closed))
  {
    if n > 0 {
      CloseToolsVerdict(s, n - 1, v);
      var r := CloseTools(s, n - 1);
      var t := s.tools[n - 1];
      EmitVerdict(r.(tools := r.tools[n - 1 := t.(closed := true)]), BlockStop(n));
      OpenFromStep(s.tools, n - 1);
    }
  }

  lemma OpenFromStep(tools: seq<Tool>, n: nat)
    requires n < |tools|
    ensures n + 1 !in OpenFrom(tools, n + 1)
    ensures OpenFrom(tools, n) == OpenFrom(tools, n + 1) + (if tools[n].started then {n + 1} else {})
  {
    forall x
      ensures x in OpenFrom(tools, n) <==>
              x in OpenFrom(tools, n + 1) + (if tools[n].started then {n + 1} else {})
    {
      if x in OpenFrom(tools, n) && x != n + 1 {
        assert tools[x - 1].started && n + 1 <= x - 1;
      }
      if x in OpenFrom(tools, n + 1) {
        assert tools[x - 1].started;
      }
      if tools[n].started && x == n + 1 {
        assert tools[x - 1].started;
      }
    }
  }

  lemma ShellMatches(s: State, sc: Scan)
    requires Matches(s, sc) && !sc.Disorder? && !sc.done
    ensures var s1 := EnsureShell(s);
            && s1.started && Judge(s1.out) == Expected(s1) && s1.tools == s.tools
            && (s1.textClosed ==> s1.textOpen)
  {
    StartMatches(s, sc);
    var s0 := EnsureStart(s);
    assert StartedIndices([]) == {};
    EmitVerdict(s0.(textOpen := true), BlockStart(0, Text));
  }

  lemma CloseTextVerdict(s: State)
    requires s.started && Judge(s.out) == Expected(s) && (s.textClosed ==> s.textOpen)
    ensures var v := Judge(CloseText(s).out);
            v.Good? && v.phase.Body? && v.open == OpenFrom(s.tools, 0) && v.lastStop <= 0
  {
    EmitVerdict(s.(textClosed := true), BlockStop(0));
    assert 0 !in StartedIndices(s.tools);
    assert StartedIndices(s.tools) == OpenFrom(s.tools, 0);
  }

  lemma CloseMessageVerdict(s: State)
    requires Judge(s.out).Good? && Judge(s.out).phase.Body? && Judge(s.out).open == {}
    ensures Judge(CloseMessage(s).out).Good? && Judge(CloseMessage(s).out).phase.Closed?
  {
    var e := MessageDelta(MapStopReason(s.finish), s.outputToks);
    EmitVerdict(s, e);
    EmitVerdict(Emit(s, e), MessageStop);
  }

  lemma FindSameKeys(tools: seq<Tool>, r: seq<Tool>, k: int)
    requires |tools| == |r|
    requires forall i :: 0 <= i < |r| ==> r[i] == tools[i].(closed := r[i].closed)
    ensures Find(r, k) == Find(tools, k)
  {
    if Find(tools, k) < |tools| {
      assert r[Find(tools, k)].key == k;
    }
  }

  lemma FinalizeMatches(s: State, sc: Scan)
    requires Matches(s, sc) && !sc.Disorder?
    ensures Matches(Finalize(s), sc.(done := true))
  {
    if !s.stopped {
      ShellMatches(s, sc);
      var s1 := EnsureShell(s).(stopped := true);
      CloseTextVerdict(s1);
      var s2 := CloseText(s1);
      CloseToolsVerdict(s2, |s2.tools|, Judge(s2.out));
      CloseToolsKeepsRest(s2, |s2.tools|);
      var s3 := CloseTools(s2, |s2.tools|);
      assert OpenFrom(s2.tools, |s2.tools|) == {};
      CloseMessageVerdict(s3);
      forall k
        ensures IsNamed(s3.tools, k) <==> IsNamed(s.tools, k)
      {
        FindSameKeys(s.tools, s3.tools, k);
      }
    }
  }

  lemma ItemMatches(s: State, sc: Scan, item: Item)
    requires Matches(s, sc)
    ensures Matches(Apply(s, item), ScanItem(sc, item))
  {
    match item {
      case Skip =>
      case Done =>
        if sc.Disorder? {
          FinalizeGrows(s);
          BadIsFinal(s, Finalize(s));
        } else {
          FinalizeMatches(s, sc);
        }
      case Data(c) =>
        var s1 := StepUsage(s, c.usage);
        assert Matches(s1, sc);
        if c.choices != [] {
          var ch := c.choices[0];
          TextMatches(s1, sc, ch.content);
          FragmentsMatch(StepText(s1, ch.content), ScanText(sc, ch.content), ch.tools);
        }
    }
  }

  lemma {:induction false} RunMatches(items: seq<Item>)
    ensures Matches(Run(items), ScanRun(items))
  {
    if items != [] {
      RunMatches(Init(items));
      ItemMatches(Run(Init(items)), ScanRun(Init(items)), Last(items));
    }
  }

  /** Whatever the upstream sends: if anything is emitted at all, the emitted events form one
      well-bracketed message if and only if the input was orderly. */
  lemma BracketedIffOrderly(items: seq<Item>)
    ensures var out := Finish(Run(items)).out; out != [] ==> (Bracketed(out) <==> Orderly(items))
  {
    RunMatches(items);
    var s := Run(items);
    var sc := ScanRun(items);
    var t := Finish(s);
    JudgeCorrect(t.out);
    if sc.Disorder? {
      FinalizeGrows(s);
      BadIsFinal(s, t);
    } else if s.started {
      FinalizeMatches(s, sc);
    } else if t.out != [] {
      NothingBeforeStart(t.out);
    }
  }

  lemma NothingBeforeStart(evs: seq<Event>)
    requires evs != []
    ensures Judge(evs) != EMPTY
  {
    JudgeLegal(evs, |evs|);
  }

  /** The same from bytes, however they are fragmented. */
  lemma StreamIsBracketed(decode: Decoder, ps: seq<Bytes>)
    ensures var out := Tail(decode, WriteAll(decode, FRESH, ps)).out;
            out != [] ==> (Bracketed(out) <==> Orderly(ItemsOf(decode, Split(Concat(ps)))))
  {
    StreamedBody(decode, ps);
    BracketedIffOrderly(ItemsOf(decode, Split(Concat(ps))));
  }

  // ----- The two ways to be disorderly -----

  /** Text, then a tool call, then text again: the last delta lands on the closed block. */
  lemma TextAfterToolIsNotBracketed()
    ensures var items := [TextItem("a"), ToolItem(Fragment(0, "id", "f", "")), TextItem("b"), Done];
            !Bracketed(Finish(Run(items)).out)
  {
    var t := TextItem("a");
    var f := Fragment(0, "id", "f", "");
    var items := [t, ToolItem(f), TextItem("b"), Done];
    assert Init(items) == [t, ToolItem(f), TextItem("b")];
    assert Init(Init(items)) == [t, ToolItem(f)];
    assert Init(Init(Init(items))) == [t];
    assert Init([t]) == [];
    assert Init([f]) == [];
    assert ScanRun([t]) == Scan(true, false, {}, false);
    assert ScanRun([t, ToolItem(f)]) == Scan(true, true, {0}, false);
    assert ScanRun([t, ToolItem(f), TextItem("b")]) == Disorder;
    assert !Orderly(items);
    BracketedIffOrderly(items);
  }

  /** A tool call alone may be followed by text: the text block opens late but is bracketed. */
  lemma ToolThenTextIsBracketed()
    ensures var items := [ToolItem(Fragment(0, "id", "f", "")), TextItem("b"), Done];
            Bracketed(Finish(Run(items)).out)
  {
    var f := Fragment(0, "id", "f", "");
    var items := [ToolItem(f), TextItem("b"), Done];
    assert Init(items) == [ToolItem(f), TextItem("b")];
    assert Init(Init(items)) == [ToolItem(f)];
    assert Init([ToolItem(f)]) == [];
    assert Init([f]) == [];
    assert ScanRun([ToolItem(f)]) == Scan(false, false, {0}, false);
    assert Orderly(items);
    BracketedIffOrderly(items);
    ApplyKeepsStarted(Run(Init(items)), Done);
    FinalizeGrows(Run(Init(items)));
    assert Finalize(Run(Init(items))).out != [];
  }
}
