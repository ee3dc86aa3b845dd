/** When the content blocks of the streamed message follow one another, as Anthropic's format asks. */
module Sequencing {
  import opened Prelude
  import opened Sse
  import opened Stream
  import opened Brackets
  import opened Bracketing

  // ----- What it means -----

  /** Every block starts after all earlier ones have stopped, with a higher index. */
  ghost predicate StartsBehind(evs: seq<Event>, j: nat)
    requires j < |evs|
  {
    evs[j].BlockStart? ==>
      forall i: nat :: StartedBefore(evs, j, i) ==> i < evs[j].index && StoppedBefore(evs, j, i)
  }

  ghost predicate Sequential(evs: seq<Event>) {
    Bracketed(evs) && forall j :: 0 <= j < |evs| ==> StartsBehind(evs, j)
  }

  // ----- Read off the recogniser -----

  ghost predicate InPlace(v: Verdict, e: Event) {
    e.BlockStart? ==> v.Good? && v.open == {} && forall i :: i in v.seen ==> i < e.index
  }

  ghost predicate InOrder(evs: seq<Event>) {
    evs == [] || (InOrder(Init(evs)) && InPlace(Judge(Init(evs)), Last(evs)))
  }

  lemma InPlaceIff(evs: seq<Event>, j: nat, v: Verdict)
    requires j < |evs| && Remembers(evs, j, v)
    ensures InPlace(v, evs[j]) <==> StartsBehind(evs, j)
  {
    if evs[j].BlockStart? {
      assert v.open == {} <==> forall i: nat :: i !in v.open;
      forall i: nat
        ensures i in v.seen <==> StartedBefore(evs, j, i)
        ensures i in v.open <==> StartedBefore(evs, j, i) && !StoppedBefore(evs, j, i)
      {
      }
    }
  }

  lemma {:induction false} InOrderIff(evs: seq<Event>, n: nat)
    requires n <= |evs| && JudgeN(evs, n).Good?
    ensures InOrder(evs[..n]) <==> forall j :: 0 <= j < n ==> StartsBehind(evs, j)
  {
    if n > 0 {
      var front := evs[..n - 1];
      assert Init(evs[..n]) == front && Last(evs[..n]) == evs[n - 1];
      assert evs == front + evs[n - 1..];
      JudgePrefix(front, evs[n - 1..], n - 1);
      JudgeLegal(evs, n - 1);
      InOrderIff(evs, n - 1);
      InPlaceIff(evs, n - 1, JudgeN(evs, n - 1));
    }
  }

  lemma SequentialIffInOrder(evs: seq<Event>)
    ensures Sequential(evs) <==> Bracketed(evs) && InOrder(evs)
  {
    if Bracketed(evs) {
      JudgeCorrect(evs);
      InOrderIff(evs, |evs|);
      assert evs[..|evs|] == evs;
    }
  }

  // ----- The writer, step by step -----

  /** At most one named tool call, and no first text behind it. */
  predicate Simple(sc: Scan) {
    sc.Disorder? || (|sc.named| <= 1 && (sc.named != {} && sc.text ==> sc.cut))
  }

  ghost predicate Follows(s: State, sc: Scan)
  {
    && Matches(s, sc)
    && (!sc.Disorder? ==> (InOrder(s.out) <==> Simple(sc)))
    && (!sc.Disorder? && !sc.done ==> |StartedIndices(s.tools)| == |sc.named|)
  }

  lemma EmitInOrder(s: State, e: Event)
    ensures InOrder(Emit(s, e).out) <==> InOrder(s.out) && InPlace(Judge(s.out), e)
  {
    assert Init(s.out + [e]) == s.out && Last(s.out + [e]) == e;
  }

  lemma StartFollows(s: State, sc: Scan)
    requires Follows(s, sc) && !sc.Disorder?
    ensures Follows(EnsureStart(s), sc) && EnsureStart(s).started
  {
    StartMatches(s, sc);
    EmitInOrder(s.(started := true), MessageStart);
  }

  lemma TextFollows(s: State, sc: Scan, content: string)
    requires Follows(s, sc)
    ensures Follows(StepText(s, content), ScanText(sc, content))
  {
    TextMatches(s, sc, content);
    if !sc.Disorder? && content != "" && !sc.done && !sc.cut {
      StartFollows(s, sc);
      var s1 := EnsureStart(s);
      var s2 := EnsureText(s1);
      if !s1.textOpen {
        EmitInOrder(s1.(textOpen := true), BlockStart(0, Text));
        assert InPlace(Expected(s1), BlockStart(0, Text)) <==> StartedIndices(s1.tools) == {} by {
          assert Expected(s1).seen == StartedIndices(s1.tools) == Expected(s1).open;
        }
      }
      EmitInOrder(s2.(text := s2.text + content), TextDelta(0, content));
    }
  }

  /** Opening a block is in order exactly when it is the first tool call. */
  lemma OpenInOrder(s: State, i: nat)
    requires i < |s.tools| && !s.tools[i].started && s.tools[i].name != ""
    requires s.started && Judge(s.out) == Expected(s) && (s.textClosed ==> s.textOpen)
    ensures InOrder(OpenTool(s, i).out) <==> InOrder(s.out) && StartedIndices(s.tools) == {}
    ensures |StartedIndices(OpenTool(s, i).tools)| == |StartedIndices(s.tools)| + 1
  {
    var t := s.tools[i];
    var s1 := CloseText(s);
    EmitInOrder(s.(textClosed := true), BlockStop(0));
    EmitVerdict(s.(textClosed := true), BlockStop(0));
    assert 0 !in StartedIndices(s.tools);
    assert Judge(s1.out) == Expected(s1);
    EmitInOrder(s1.(tools := s1.tools[i := t.(started := true)]), BlockStart(i + 1, ToolUse(t.id, t.name)));
    assert Expected(s1).open == StartedIndices(s.tools);
    StartedIndicesUpdate(s.tools, i);
    assert i + 1 !in StartedIndices(s.tools);
  }

  lemma RegisteredInOrder(s: State, sc: Scan, f: Fragment)
    requires Follows(s, sc) && !sc.Disorder? && !sc.done && s.started
    ensures var s3 := OpenTool(s.(tools := Register(s.tools, f)), Find(s.tools, f.index)); var sc' := ScanFragment(sc, f);
            (InOrder(s3.out) <==> Simple(sc')) && |StartedIndices(s3.tools)| == |sc'.named|
  {
    FragmentTools(s, sc, f);
    RegisterKeepsStarted(s.tools, f);
    var s2 := s.(tools := Register(s.tools, f));
    if f.name != "" && f.index !in sc.named {
      assert Judge(s2.out) == Expected(s2);
      OpenInOrder(s2, Find(s.tools, f.index));
      assert |sc.named + {f.index}| == |sc.named| + 1;
    }
  }

  lemma ArgsFollow(s: State, i: nat, json: string)
    requires i < |s.tools|
    ensures var t := SendArgs(s, i, json); (InOrder(t.out) <==> InOrder(s.out)) && t.tools == s.tools
  {
    EmitInOrder(s, ArgsDelta(i + 1, json));
  }

  lemma FragmentFollowsBeforeDone(s: State, sc: Scan, f: Fragment)
    requires Follows(s, sc) && !sc.Disorder? && !sc.done && s.started
    ensures Follows(StepFragment(s, f), ScanFragment(sc, f))
  {
    FragmentBeforeDone(s, sc, f);
    RegisteredInOrder(s, sc, f);
    var i := Find(s.tools, f.index);
    var s3 := OpenTool(s.(tools := Register(s.tools, f)), i);
    ArgsFollow(s3, i, f.args);
    assert StepFragment(s, f) == SendArgs(s3, i, f.args);
  }

  lemma FragmentFollows(s: State, sc: Scan, f: Fragment)
    requires Follows(s, sc)
    ensures Follows(StepFragment(s, f), ScanFragment(sc, f))
  {
    FragmentMatches(s, sc, f);
    if !sc.Disorder? && sc.done {
      var t := StepFragment(s, f);
      FragmentTools(s, sc, f);
      if |t.out| > |s.out| {
        EmittedAfterEnd(s, t);
      }
    } else if !sc.Disorder? {
      StartFollows(s, sc);
      FragmentFollowsBeforeDone(EnsureStart(s), sc, f);
      StartFirst(s, f);
    }
  }

  lemma {:induction false} FragmentsFollow(s: State, sc: Scan, fs: seq<Fragment>)
    requires Follows(s, sc)
    ensures Follows(StepFragments(s, fs), ScanFragments(sc, fs))
  {
    if fs != [] {
      FragmentsFollow(s, sc, Init(fs));
      FragmentFollows(StepFragments(s, Init(fs)), ScanFragments(sc, Init(fs)), Last(fs));
    }
  }

  lemma {:induction false} CloseToolsInOrder(s: State, n: nat)
    requires n <= |s.tools|
    ensures InOrder(CloseTools(s, n).out) <==> InOrder(s.out)
  {
    if n > 0 {
      CloseToolsInOrder(s, n - 1);
      var r := CloseTools(s, n - 1);
      var t := r.tools[n - 1];
      EmitInOrder(r.(tools := r.tools[n - 1 := t.(closed := true)]), BlockStop(n));
    }
  }

  lemma ShellInOrder(s: State, sc: Scan)
    requires Follows(s, sc) && !sc.Disorder? && !sc.done
    ensures InOrder(EnsureShell(s).out) <==> InOrder(s.out)
  {
    StartFollows(s, sc);
    var s1 := EnsureStart(s);
    if !s1.textOpen && s1.tools == [] {
      EmitInOrder(s1.(textOpen := true), BlockStart(0, Text));
      assert Expected(s1).seen == {};
    }
  }

  /** Finalisation starts no block but that of an otherwise empty message. */
  lemma FinalizeFollows(s: State, sc: Scan)
    requires Follows(s, sc) && !sc.Disorder?
    ensures Follows(Finalize(s), sc.(done := true))
  {
    FinalizeMatches(s, sc);
    if !s.stopped {
      ShellInOrder(s, sc);
      var s1 := EnsureShell(s).(stopped := true);
      EmitInOrder(s1.(textClosed := true), BlockStop(0));
      var s2 := CloseText(s1);
      CloseToolsInOrder(s2, |s2.tools|);
      var s3 := CloseTools(s2, |s2.tools|);
      var e := MessageDelta(MapStopReason(s3.finish), s3.outputToks);
      EmitInOrder(s3, e);
      EmitInOrder(Emit(s3, e), MessageStop);
    }
  }

  lemma ItemFollows(s: State, sc: Scan, item: Item)
    requires Follows(s, sc)
    ensures Follows(Apply(s, item), ScanItem(sc, item))
  {
    ItemMatches(s, sc, item);
    match item {
      case Skip =>
      case Done =>
        if !sc.Disorder? {
          FinalizeFollows(s, sc);
        }
      case Data(c) =>
        var s1 := StepUsage(s, c.usage);
        assert Follows(s1, sc);
        if c.choices != [] {
          var ch := c.choices[0];
          TextFollows(s1, sc, ch.content);
          FragmentsFollow(StepText(s1, ch.content), ScanText(sc, ch.content), ch.tools);
        }
    }
  }

  lemma {:induction false} RunFollows(items: seq<Item>)
    ensures Follows(Run(items), ScanRun(items))
  {
    if items != [] {
      RunFollows(Init(items));
      ItemFollows(Run(Init(items)), ScanRun(Init(items)), Last(items));
    } else {
      assert StartedIndices([]) == {};
    }
  }

  /** Orderly input with at most one named tool call, and no first text behind it. */
  predicate OneAfterAnother(items: seq<Item>) {
    Orderly(items) && Simple(ScanRun(items))
  }

  /** Whatever the upstream sends: if anything is emitted, the blocks of the message follow one another
      if and only if the input is orderly and has at most one tool call, with no first text behind it. */
  lemma SequentialIff(items: seq<Item>)
    ensures var out := Finish(Run(items)).out; out != [] ==> (Sequential(out) <==> OneAfterAnother(items))
  {
    var s := Run(items);
    var sc := ScanRun(items);
    BracketedIffOrderly(items);
    SequentialIffInOrder(Finish(s).out);
    RunFollows(items);
    if !sc.Disorder? && s.started {
      FinalizeFollows(s, sc);
    }
  }

  /** The same from bytes, however they are fragmented. */
  lemma StreamIsSequential(decode: Decoder, ps: seq<Bytes>)
    ensures var out := Tail(decode, WriteAll(decode, FRESH, ps)).out;
            out != [] ==> (Sequential(out) <==> OneAfterAnother(ItemsOf(decode, Split(Concat(ps)))))
  {
    StreamedBody(decode, ps);
    SequentialIff(ItemsOf(decode, Split(Concat(ps))));
  }

  /** Two tool calls are bracketed but not sequential: the first block is still open when the second starts. */
  lemma TwoToolsOverlap(f: Fragment, g: Fragment)
    requires f.name != "" && g.name != "" && f.index != g.index
    ensures var out := Finish(Run([ToolItem(f), ToolItem(g), Done])).out; Bracketed(out) && !Sequential(out)
  {
    var items := [ToolItem(f), ToolItem(g), Done];
    assert Init(items) == [ToolItem(f), ToolItem(g)];
    assert Init(Init(items)) == [ToolItem(f)] && Init([ToolItem(f)]) == [];
    assert Init([f]) == [] && Init([g]) == [];
    assert ScanText(QUIET, "") == QUIET && {} + {f.index} == {f.index} && {f.index} + {g.index} == {f.index, g.index};
    assert ScanFragments(QUIET, [f]) == ScanFragment(QUIET, f);
    assert ScanRun([ToolItem(f)]) == Scan(false, false, {f.index}, false);
    var sc := ScanRun([ToolItem(f)]);
    assert ScanFragments(ScanText(sc, ""), [g]) == ScanFragment(ScanFragments(ScanText(sc, ""), []), g);
    assert ScanRun([ToolItem(f), ToolItem(g)]) == Scan(false, false, {f.index, g.index}, false);
    assert ScanRun(items) == Scan(false, false, {f.index, g.index}, true);
    assert |{f.index, g.index}| == 2;
    RunMatches(items);
    BracketedIffOrderly(items);
    SequentialIff(items);
  }
}
