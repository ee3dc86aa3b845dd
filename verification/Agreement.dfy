/** The streamed message and the batch reassembly of the same response agree, and exactly when. */
module Agreement {
  import opened Prelude
  import opened Sse
  import opened Stream
  import opened Reassembly

  // ----- The fragments of one tool call -----

  function Of(fs: seq<Fragment>, k: int): seq<Fragment>
  {
    if fs == [] then [] else Of(Init(fs), k) + (if Last(fs).index == k then [Last(fs)] else [])
  }

  /** The tool-call indices in order of first appearance. */
  function Keys(fs: seq<Fragment>): seq<int>
  {
    if fs == [] then []
    else
      var ks := Keys(Init(fs));
      if Last(fs).index in ks then ks else ks + [Last(fs).index]
  }

  /** The first fragment with a name, or the number of fragments. */
  function FirstNamed(fs: seq<Fragment>): (j: nat)
    ensures j <= |fs|
    ensures j < |fs| ==> fs[j].name != ""
    ensures forall i :: 0 <= i < j ==> fs[i].name == ""
  {
    if fs == [] || fs[0].name != "" then 0 else 1 + FirstNamed(fs[1..])
  }

  function FirstId(fs: seq<Fragment>): string
  {
    if fs == [] then "" else if FirstId(Init(fs)) != "" then FirstId(Init(fs)) else Last(fs).id
  }

  function LastId(fs: seq<Fragment>): string
  {
    if fs == [] then "" else if Last(fs).id != "" then Last(fs).id else LastId(Init(fs))
  }

  function LastName(fs: seq<Fragment>): string
  {
    if fs == [] then "" else if Last(fs).name != "" then Last(fs).name else LastName(Init(fs))
  }

  function Args(fs: seq<Fragment>): string
  {
    if fs == [] then "" else Args(Init(fs)) + Last(fs).args
  }

  /** What the events say about a tool call: nothing before its name, then the first id and name. */
  function StreamCall(fs: seq<Fragment>): Option<ToolCall>
  {
    var j := FirstNamed(fs);
    if j == |fs| then None else Some(ToolCall(FirstId(fs[..j + 1]), fs[j].name, Args(fs[j..])))
  }

  /** What the batch form says: the last id and name and all arguments. */
  function FullCall(fs: seq<Fragment>): ToolCall {
    ToolCall(LastId(fs), LastName(fs), Args(fs))
  }

  /** A tool call both forms read alike: it gets a name, no arguments come before the name, and id and
      name as known when the name arrives are the final ones. */
  ghost predicate Clean(fs: seq<Fragment>)
  {
    var j := FirstNamed(fs);
    && j < |fs|
    && (forall i :: 0 <= i < j ==> fs[i].args == "")
    && FirstId(fs[..j + 1]) == LastId(fs)
    && fs[j].name == LastName(fs)
  }

  lemma {:induction false} ArgsConcat(a: seq<Fragment>, b: seq<Fragment>)
    ensures Args(a + b) == Args(a) + Args(b)
  {
    if b == [] {
      assert a + b == a && Args(a) + "" == Args(a);
    } else {
      InitOfConcat(a, b);
      ArgsConcat(a, Init(b));
      Associative(Args(a), Args(Init(b)), Last(b).args);
    }
  }

  lemma {:induction false} NoArgs(fs: seq<Fragment>)
    ensures Args(fs) == "" <==> forall i :: 0 <= i < |fs| ==> fs[i].args == ""
  {
    if fs != [] {
      NoArgs(Init(fs));
      if Args(fs) == "" {
        assert |Args(fs)| == |Args(Init(fs))| + |Last(fs).args|;
      }
    }
  }

  /** Exactly the clean tool calls come out the same. */
  lemma CallAgreement(fs: seq<Fragment>)
    ensures StreamCall(fs) == Some(FullCall(fs)) <==> Clean(fs)
  {
    var j := FirstNamed(fs);
    if j < |fs| {
      assert fs == fs[..j] + fs[j..];
      ArgsConcat(fs[..j], fs[j..]);
      NoArgs(fs[..j]);
      assert Args(fs[j..]) == Args(fs) <==> Args(fs[..j]) == "" by {
        assert |Args(fs)| == |Args(fs[..j])| + |Args(fs[j..])|;
      }
      assert forall i :: 0 <= i < j ==> fs[..j][i] == fs[i];
    }
  }

  lemma FirstNamedSnoc(fs: seq<Fragment>, f: Fragment)
    ensures FirstNamed(fs + [f]) ==
            if FirstNamed(fs) < |fs| then FirstNamed(fs) else if f.name != "" then |fs| else |fs| + 1
  {
    var j := FirstNamed(fs);
    var r := fs + [f];
    assert forall i :: 0 <= i < |fs| ==> r[i] == fs[i];
    assert r[|fs|] == f;
  }

  lemma ArgsSnoc(fs: seq<Fragment>, f: Fragment)
    ensures Args(fs + [f]) == Args(fs) + f.args
  {
    InitOfConcat(fs, [f]);
    assert fs + Init([f]) == fs;
  }

  /** A fragment behind a named one adds its arguments. */
  lemma NamedCallSnoc(fs: seq<Fragment>, f: Fragment)
    requires FirstNamed(fs) < |fs|
    ensures StreamCall(fs).Some? && StreamCall(fs + [f]).Some?
    ensures var c := StreamCall(fs).value; StreamCall(fs + [f]).value == c.(args := c.args + f.args)
  {
    var j := FirstNamed(fs);
    FirstNamedSnoc(fs, f);
    SlicesOfSnoc(fs, f, j);
    SlicesOfSnoc(fs, f, j + 1);
    ArgsSnoc(fs[j..], f);
  }

  lemma UnnamedCallSnoc(fs: seq<Fragment>, f: Fragment)
    requires FirstNamed(fs) == |fs|
    ensures StreamCall(fs + [f]) == if f.name == "" then None else Some(ToolCall(FirstId(fs + [f]), f.name, f.args))
  {
    FirstNamedSnoc(fs, f);
    if f.name != "" {
      assert (fs + [f])[|fs|..] == [f];
      assert Init([f]) == [];
      assert Args([f]) == "" + f.args == f.args;
      assert (fs + [f])[..|fs| + 1] == fs + [f];
    }
  }

  lemma StreamCallSnoc(fs: seq<Fragment>, f: Fragment)
    ensures StreamCall(fs + [f]) ==
            match StreamCall(fs)
            case Some(c) => Some(c.(args := c.args + f.args))
            case None => if f.name == "" then None else Some(ToolCall(FirstId(fs + [f]), f.name, f.args))
  {
    if FirstNamed(fs) < |fs| {
      NamedCallSnoc(fs, f);
    } else {
      UnnamedCallSnoc(fs, f);
    }
  }

  lemma SnocFacts(fs: seq<Fragment>, f: Fragment)
    ensures Init(fs + [f]) == fs
    ensures FirstId(fs + [f]) == if FirstId(fs) != "" then FirstId(fs) else f.id
    ensures FullCall(fs + [f]) == ToolCall(if f.id != "" then f.id else LastId(fs),
                                           if f.name != "" then f.name else LastName(fs), Args(fs) + f.args)
    ensures forall k :: Of(fs + [f], k) == if f.index == k then Of(fs, k) + [f] else Of(fs, k)
    ensures Keys(fs + [f]) == if f.index in Keys(fs) then Keys(fs) else Keys(fs) + [f.index]
  {
    assert Init(fs + [f]) == fs;
  }

  lemma {:induction false} KeysDistinct(fs: seq<Fragment>)
    ensures forall p, q :: 0 <= p < q < |Keys(fs)| ==> Keys(fs)[p] != Keys(fs)[q]
    ensures forall k :: k !in Keys(fs) ==> Of(fs, k) == []
  {
    if fs != [] {
      KeysDistinct(Init(fs));
    }
  }

  // ----- The stream side -----

  /** The name under which a block is registered: the name of the first named fragment. */
  function FirstName(fs: seq<Fragment>): string {
    if FirstNamed(fs) < |fs| then fs[FirstNamed(fs)].name else ""
  }

  ghost predicate ToolFor(t: Tool, k: int, fs: seq<Fragment>)
  {
    t.key == k && t.id == FirstId(fs) && t.name == FirstName(fs) && t.started == (t.name != "")
  }

  ghost predicate Streams(tools: seq<Tool>, out: seq<Event>, fs: seq<Fragment>)
  {
    && |tools| == |Keys(fs)|
    && (forall p :: 0 <= p < |tools| ==> ToolFor(tools[p], Keys(fs)[p], Of(fs, Keys(fs)[p])))
    && (forall p :: 0 <= p < |tools| ==> CallAt(out, p + 1) == StreamCall(Of(fs, Keys(fs)[p])))
    && (forall i: nat :: i == 0 || i > |tools| ==> CallAt(out, i).None?)
  }

  lemma CallSnoc(evs: seq<Event>, e: Event)
    ensures Init(evs + [e]) == evs && Last(evs + [e]) == e
  {
  }

  /** An event that carries no tool data changes no tool call. */
  lemma CallsUnchanged(evs: seq<Event>, e: Event)
    requires !e.ArgsDelta? && (e.BlockStart? ==> e.kind.Text?)
    ensures forall i :: CallAt(evs + [e], i) == CallAt(evs, i)
  {
    CallSnoc(evs, e);
  }

  lemma PositionInKeys(tools: seq<Tool>, out: seq<Event>, fs: seq<Fragment>, k: int)
    requires Streams(tools, out, fs)
    ensures Find(tools, k) < |tools| <==> k in Keys(fs)
    ensures Find(tools, k) < |tools| ==> Keys(fs)[Find(tools, k)] == k
  {
    var i := Find(tools, k);
    if i < |tools| {
      assert ToolFor(tools[i], Keys(fs)[i], Of(fs, Keys(fs)[i]));
    }
    if k in Keys(fs) {
      var p :| 0 <= p < |Keys(fs)| && Keys(fs)[p] == k;
      assert ToolFor(tools[p], k, Of(fs, k));
    }
  }

  /** Registering a fragment keeps the blocks in step with the keys. */
  lemma RegisteredKeys(tools: seq<Tool>, out: seq<Event>, fs: seq<Fragment>, f: Fragment)
    requires Streams(tools, out, fs)
    ensures var i := Find(tools, f.index); var r := Register(tools, f);
            |r| == |Keys(fs + [f])| && i < |r| && Keys(fs + [f])[i] == f.index
    ensures Find(tools, f.index) == |tools| ==> Of(fs, f.index) == []
    ensures Find(tools, f.index) < |tools| ==> ToolFor(tools[Find(tools, f.index)], f.index, Of(fs, f.index))
    ensures CallAt(out, Find(tools, f.index) + 1) == StreamCall(Of(fs, f.index))
  {
    PositionInKeys(tools, out, fs, f.index);
    SnocFacts(fs, f);
    KeysDistinct(fs);
  }

  lemma RegisteredFields(tools: seq<Tool>, f: Fragment, mine: seq<Fragment>)
    requires var i := Find(tools, f.index);
             if i < |tools| then ToolFor(tools[i], f.index, mine) else mine == []
    ensures var r := Register(tools, f); var i := Find(tools, f.index);
            && r[i].key == f.index && r[i].id == FirstId(mine + [f]) && r[i].name == FirstName(mine + [f])
            && r[i].started == (FirstName(mine) != "")
  {
    SnocFacts(mine, f);
    FirstNamedSnoc(mine, f);
  }

  /** The block of a fragment after it was registered. */
  lemma RegisteredTool(tools: seq<Tool>, out: seq<Event>, fs: seq<Fragment>, f: Fragment)
    requires Streams(tools, out, fs)
    ensures var i := Find(tools, f.index); var r := Register(tools, f); var mine := Of(fs, f.index);
            && |r| == |Keys(fs + [f])| && i < |r| && Keys(fs + [f])[i] == f.index
            && Of(fs + [f], f.index) == mine + [f]
            && r[i].key == f.index && r[i].id == FirstId(mine + [f]) && r[i].name == FirstName(mine + [f])
            && r[i].started == (FirstName(mine) != "")
            && CallAt(out, i + 1) == StreamCall(mine)
  {
    RegisteredKeys(tools, out, fs, f);
    RegisteredFields(tools, f, Of(fs, f.index));
    SnocFacts(fs, f);
  }

  /** The other blocks do not notice. */
  lemma OtherTools(tools: seq<Tool>, out: seq<Event>, fs: seq<Fragment>, f: Fragment, p: nat)
    requires Streams(tools, out, fs) && p < |Keys(fs + [f])| && p != Find(tools, f.index)
    ensures p < |tools| && Keys(fs + [f])[p] == Keys(fs)[p] && Of(fs + [f], Keys(fs)[p]) == Of(fs, Keys(fs)[p])
    ensures Register(tools, f)[p] == tools[p]
  {
    PositionInKeys(tools, out, fs, f.index);
    SnocFacts(fs, f);
    KeysDistinct(fs);
  }

  /** Opening a block adds its call; nothing else about calls changes. */
  lemma OpenedCalls(s: State, i: nat)
    requires i < |s.tools| && (!s.tools[i].started ==> CallAt(s.out, i + 1).None?)
    ensures var t := OpenTool(s, i); var tool := s.tools[i];
            && (forall j: nat :: j != i + 1 ==> CallAt(t.out, j) == CallAt(s.out, j))
            && CallAt(t.out, i + 1) == (if tool.started || tool.name == "" then CallAt(s.out, i + 1)
                                        else Some(ToolCall(tool.id, tool.name, "")))
            && t.tools == s.tools[i := tool.(started := tool.started || tool.name != "")]
  {
    CallsUnchanged(s.out, BlockStop(0));
    var s1 := CloseText(s);
    CallSnoc(s1.out, BlockStart(i + 1, ToolUse(s.tools[i].id, s.tools[i].name)));
  }

  /** The call of the fragment's own block after its arguments were appended. */
  lemma FragmentCall(out: seq<Event>, i: nat, mine: seq<Fragment>, f: Fragment, started: bool)
    requires started == (FirstName(mine) != "")
    requires CallAt(out, i) == if started then StreamCall(mine)
                               else if FirstName(mine + [f]) == "" then None
                               else Some(ToolCall(FirstId(mine + [f]), FirstName(mine + [f]), ""))
    ensures var named := FirstName(mine + [f]) != "";
            var out' := if f.args != "" && named then out + [ArgsDelta(i, f.args)] else out;
            CallAt(out', i) == StreamCall(mine + [f])
  {
    FirstNamedSnoc(mine, f);
    StreamCallSnoc(mine, f);
    CallSnoc(out, ArgsDelta(i, f.args));
    assert "" + f.args == f.args;
    if started && f.args == "" {
      var c := StreamCall(mine).value;
      assert c.args + f.args == c.args;
    }
  }

  /** What one fragment does to its own block and to the others. */
  ghost predicate Effect(tools: seq<Tool>, out: seq<Event>, fs: seq<Fragment>, f: Fragment,
                         tools': seq<Tool>, out': seq<Event>)
  {
    var i := Find(tools, f.index);
    var mine := Of(fs, f.index) + [f];
    && |tools'| == |Register(tools, f)| && i < |tools'|
    && ToolFor(tools'[i], f.index, mine)
    && CallAt(out', i + 1) == StreamCall(mine)
    && (forall p :: 0 <= p < |tools'| && p != i ==> tools'[p] == Register(tools, f)[p])
    && (forall j: nat :: j != i + 1 ==> CallAt(out', j) == CallAt(out, j))
  }

  lemma OpenEffect(s: State, fs: seq<Fragment>, f: Fragment)
    requires Streams(s.tools, s.out, fs)
    ensures var i := Find(s.tools, f.index); var mine := Of(fs, f.index); var name := FirstName(mine + [f]);
            var r := Register(s.tools, f); var t := OpenTool(s.(tools := r), i);
            && |t.tools| == |r| && ToolFor(t.tools[i], f.index, mine + [f])
            && (forall p :: 0 <= p < |r| && p != i ==> t.tools[p] == r[p])
            && (forall j: nat :: j != i + 1 ==> CallAt(t.out, j) == CallAt(s.out, j))
            && CallAt(t.out, i + 1) == (if FirstName(mine) != "" then StreamCall(mine)
                                        else if name == "" then None
                                        else Some(ToolCall(FirstId(mine + [f]), name, "")))
  {
    RegisteredTool(s.tools, s.out, fs, f);
    var mine := Of(fs, f.index);
    FirstNamedSnoc(mine, f);
    OpenedCalls(s.(tools := Register(s.tools, f)), Find(s.tools, f.index));
  }

  /** Sending the arguments completes the call of the block. */
  lemma ArgsEffect(s: State, i: nat, mine: seq<Fragment>, f: Fragment)
    requires i < |s.tools| && ToolFor(s.tools[i], f.index, mine + [f])
    requires CallAt(s.out, i + 1) == if FirstName(mine) != "" then StreamCall(mine)
                                     else if FirstName(mine + [f]) == "" then None
                                     else Some(ToolCall(FirstId(mine + [f]), FirstName(mine + [f]), ""))
    ensures var t := SendArgs(s, i, f.args);
            && t.tools == s.tools && CallAt(t.out, i + 1) == StreamCall(mine + [f])
            && (forall j: nat :: j != i + 1 ==> CallAt(t.out, j) == CallAt(s.out, j))
  {
    ArgsCalls(s.out, i + 1, f.args);
    FragmentCall(s.out, i + 1, mine, f, FirstName(mine) != "");
  }

  lemma StartedEffect(s: State, fs: seq<Fragment>, f: Fragment)
    requires Streams(s.tools, s.out, fs) && s.started
    ensures Effect(s.tools, s.out, fs, f, StepFragment(s, f).tools, StepFragment(s, f).out)
  {
    OpenEffect(s, fs, f);
    var i := Find(s.tools, f.index);
    ArgsEffect(OpenTool(s.(tools := Register(s.tools, f)), i), i, Of(fs, f.index), f);
  }

  lemma ArgsCalls(evs: seq<Event>, i: nat, json: string)
    ensures forall j: nat :: j != i ==> CallAt(evs + [ArgsDelta(i, json)], j) == CallAt(evs, j)
  {
    CallSnoc(evs, ArgsDelta(i, json));
  }

  lemma StartStreams(s: State, fs: seq<Fragment>)
    requires Streams(s.tools, s.out, fs)
    ensures Streams(s.tools, EnsureStart(s).out, fs)
    ensures forall j :: CallAt(EnsureStart(s).out, j) == CallAt(s.out, j)
  {
    CallsUnchanged(s.out, MessageStart);
  }

  lemma FragmentEffect(s: State, fs: seq<Fragment>, f: Fragment)
    requires Streams(s.tools, s.out, fs)
    ensures Effect(s.tools, s.out, fs, f, StepFragment(s, f).tools, StepFragment(s, f).out)
  {
    var s1 := EnsureStart(s);
    StartStreams(s, fs);
    StartedEffect(s1, fs, f);
    StartFirst(s, f);
  }

  lemma FragmentStreams(s: State, fs: seq<Fragment>, f: Fragment)
    requires Streams(s.tools, s.out, fs)
    ensures Streams(StepFragment(s, f).tools, StepFragment(s, f).out, fs + [f])
  {
    FragmentEffect(s, fs, f);
    var tools, out := StepFragment(s, f).tools, StepFragment(s, f).out;
    EffectStreams(s.tools, s.out, fs, f, tools, out);
  }

  lemma EffectStreams(tools: seq<Tool>, out: seq<Event>, fs: seq<Fragment>, f: Fragment,
                      tools': seq<Tool>, out': seq<Event>)
    requires Streams(tools, out, fs)
    requires Effect(tools, out, fs, f, tools', out')
    ensures Streams(tools', out', fs + [f])
  {
    RegisteredTool(tools, out, fs, f);
    var i := Find(tools, f.index);
    forall p | 0 <= p < |tools'|
      ensures ToolFor(tools'[p], Keys(fs + [f])[p], Of(fs + [f], Keys(fs + [f])[p]))
      ensures CallAt(out', p + 1) == StreamCall(Of(fs + [f], Keys(fs + [f])[p]))
    {
      if p != i {
        OtherTools(tools, out, fs, f, p);
        assert ToolFor(tools[p], Keys(fs)[p], Of(fs, Keys(fs)[p]));
      }
    }
  }

  lemma {:induction false} FragmentsStream(s: State, fs: seq<Fragment>, gs: seq<Fragment>)
    requires Streams(s.tools, s.out, fs)
    ensures Streams(StepFragments(s, gs).tools, StepFragments(s, gs).out, fs + gs)
  {
    if gs == [] {
      assert fs + gs == fs;
    } else {
      FragmentsStream(s, fs, Init(gs));
      assert fs + gs == (fs + Init(gs)) + [Last(gs)];
      FragmentStreams(StepFragments(s, Init(gs)), fs + Init(gs), Last(gs));
      assert StepFragments(s, gs) == StepFragment(StepFragments(s, Init(gs)), Last(gs));
    }
  }

  // ----- Whole runs -----

  predicate HasChoice(item: Item) {
    item.Data? && item.chunk.choices != []
  }

  function FragsOf(items: seq<Item>): seq<Fragment>
  {
    if items == [] then []
    else FragsOf(Init(items)) + (if HasChoice(Last(items)) then Last(items).chunk.choices[0].tools else [])
  }

  function TextIn(items: seq<Item>): string
  {
    if items == [] then ""
    else TextIn(Init(items)) + (if HasChoice(Last(items)) then Last(items).chunk.choices[0].content else "")
  }

  function FinishIn(item: Item): Option<string> {
    if HasChoice(item) then item.chunk.choices[0].finish else None
  }

  /** The last finish reason sent, empty ones included. */
  function LastFinish(items: seq<Item>): string
  {
    if items == [] then ""
    else if FinishIn(Last(items)).Some? then FinishIn(Last(items)).value
    else LastFinish(Init(items))
  }

  /** The last finish reason that was not empty. */
  function KeptFinish(items: seq<Item>): string
  {
    if items == [] then ""
    else if FinishIn(Last(items)).Some? && FinishIn(Last(items)).value != "" then FinishIn(Last(items)).value
    else KeptFinish(Init(items))
  }

  /** Nothing but usage follows the terminator. */
  ghost predicate QuietAfterDone(items: seq<Item>) {
    forall i, j :: 0 <= i < j < |items| && items[i].Done? ==> !HasChoice(items[j])
  }

  /** No chunk relies on a complete message instead of a delta. */
  ghost predicate DeltaOnly(items: seq<Item>) {
    forall i :: 0 <= i < |items| && HasChoice(items[i]) ==>
      items[i].chunk.choices[0].content != "" || items[i].chunk.choices[0].message.None?
  }

  ghost predicate Follows(s: State, items: seq<Item>)
  {
    && Streams(s.tools, s.out, FragsOf(items))
    && TextOf(s.out) == TextIn(items)
    && s.finish == KeptFinish(items)
    && (s.stopped <==> exists i :: 0 <= i < |items| && items[i].Done?)
    && StopReasonOf(s.out) == if s.stopped then Some(MapStopReason(s.finish)) else None
  }

  lemma QuietEvent(evs: seq<Event>, e: Event)
    ensures !e.TextDelta? ==> TextOf(evs + [e]) == TextOf(evs)
    ensures e.TextDelta? ==> TextOf(evs + [e]) == TextOf(evs) + e.text
    ensures StopReasonOf(evs + [e]) == if e.MessageDelta? then Some(e.stopReason) else StopReasonOf(evs)
  {
    CallSnoc(evs, e);
    assert TextOf(evs) + "" == TextOf(evs);
  }

  /** Text, stop reason, finish and the stopped flag are the same. */
  predicate SameText(s: State, t: State) {
    && TextOf(t.out) == TextOf(s.out) && StopReasonOf(t.out) == StopReasonOf(s.out)
    && t.finish == s.finish && t.stopped == s.stopped
  }

  lemma EmitKeepsText(s: State, e: Event)
    requires !e.TextDelta? && !e.MessageDelta?
    ensures SameText(s, Emit(s, e))
  {
    QuietEvent(s.out, e);
  }

  lemma OpenKeepsText(s: State, i: nat)
    requires i < |s.tools|
    ensures SameText(s, OpenTool(s, i))
  {
    var t := s.tools[i];
    QuietEvent(s.out, BlockStop(0));
    QuietEvent(CloseText(s).out, BlockStart(i + 1, ToolUse(t.id, t.name)));
  }

  lemma StartedKeepsText(s: State, f: Fragment)
    requires s.started
    ensures SameText(s, StepFragment(s, f))
  {
    var i := Find(s.tools, f.index);
    var s2 := s.(tools := Register(s.tools, f));
    OpenKeepsText(s2, i);
    EmitKeepsText(OpenTool(s2, i), ArgsDelta(i + 1, f.args));
  }

  lemma FragmentKeepsText(s: State, f: Fragment)
    ensures SameText(s, StepFragment(s, f))
  {
    EmitKeepsText(s.(started := true), MessageStart);
    StartedKeepsText(EnsureStart(s), f);
    StartFirst(s, f);
  }

  lemma {:induction false} FragmentsKeepText(s: State, fs: seq<Fragment>)
    ensures SameText(s, StepFragments(s, fs))
  {
    if fs != [] {
      FragmentsKeepText(s, Init(fs));
      FragmentKeepsText(StepFragments(s, Init(fs)), Last(fs));
    }
  }

  lemma TextStreams(s: State, content: string, fs: seq<Fragment>)
    requires Streams(s.tools, s.out, fs)
    ensures var t := StepText(s, content);
            && Streams(t.tools, t.out, fs) && TextOf(t.out) == TextOf(s.out) + content
            && StopReasonOf(t.out) == StopReasonOf(s.out) && t.finish == s.finish && t.stopped == s.stopped
  {
    var s1 := EnsureStart(s);
    StartStreams(s, fs);
    QuietEvent(s.out, MessageStart);
    var s2 := EnsureText(s1);
    CallsUnchanged(s1.out, BlockStart(0, Text));
    QuietEvent(s1.out, BlockStart(0, Text));
    CallsUnchanged(s2.out, TextDelta(0, content));
    QuietEvent(s2.out, TextDelta(0, content));
  }

  /** What closing blocks leaves alone. */
  ghost predicate OnlyClosed(s: State, t: State)
  {
    && |t.tools| == |s.tools| && (forall p :: 0 <= p < |s.tools| ==> t.tools[p] == s.tools[p].(closed := t.tools[p].closed))
    && (forall i: nat :: CallAt(t.out, i) == CallAt(s.out, i))
    && TextOf(t.out) == TextOf(s.out) && t.finish == s.finish
  }

  lemma CloseToolOnly(s: State, i: nat)
    requires i < |s.tools|
    ensures OnlyClosed(s, CloseTool(s, i))
  {
    CallsUnchanged(s.out, BlockStop(i + 1));
    QuietEvent(s.out, BlockStop(i + 1));
  }

  lemma {:induction false} CloseToolsOnly(s: State, n: nat)
    requires n <= |s.tools|
    ensures OnlyClosed(s, CloseTools(s, n))
  {
    if n > 0 {
      CloseToolsOnly(s, n - 1);
      CloseToolOnly(CloseTools(s, n - 1), n - 1);
    }
  }

  lemma CloseToolsKeepsCalls(s: State, n: nat, fs: seq<Fragment>)
    requires n <= |s.tools| && Streams(s.tools, s.out, fs)
    ensures var t := CloseTools(s, n);
            && Streams(t.tools, t.out, fs) && TextOf(t.out) == TextOf(s.out) && t.finish == s.finish
  {
    CloseToolsOnly(s, n);
    var t := CloseTools(s, n);
    forall p | 0 <= p < |t.tools|
      ensures ToolFor(t.tools[p], Keys(fs)[p], Of(fs, Keys(fs)[p]))
    {
      assert ToolFor(s.tools[p], Keys(fs)[p], Of(fs, Keys(fs)[p]));
    }
  }

  lemma CloseMessageKeepsCalls(s: State, fs: seq<Fragment>)
    requires Streams(s.tools, s.out, fs)
    ensures var t := CloseMessage(s);
            && Streams(t.tools, t.out, fs) && TextOf(t.out) == TextOf(s.out)
            && StopReasonOf(t.out) == Some(MapStopReason(s.finish))
  {
    var e := MessageDelta(MapStopReason(s.finish), s.outputToks);
    CallsUnchanged(s.out, e);
    QuietEvent(s.out, e);
    CallsUnchanged(s.out + [e], MessageStop);
    QuietEvent(s.out + [e], MessageStop);
  }

  lemma ShellKeepsCalls(s: State, fs: seq<Fragment>)
    requires Streams(s.tools, s.out, fs)
    ensures var t := CloseText(EnsureShell(s).(stopped := true));
            Streams(t.tools, t.out, fs) && TextOf(t.out) == TextOf(s.out) && t.finish == s.finish
  {
    StartStreams(s, fs);
    QuietEvent(s.out, MessageStart);
    var s1 := EnsureStart(s);
    CallsUnchanged(s1.out, BlockStart(0, Text));
    QuietEvent(s1.out, BlockStart(0, Text));
    var s2 := EnsureShell(s).(stopped := true);
    CallsUnchanged(s2.out, BlockStop(0));
    QuietEvent(s2.out, BlockStop(0));
  }

  lemma FinalizeKeepsCalls(s: State, fs: seq<Fragment>)
    requires Streams(s.tools, s.out, fs) && !s.stopped
    ensures var t := Finalize(s);
            && Streams(t.tools, t.out, fs) && TextOf(t.out) == TextOf(s.out) && t.finish == s.finish && t.stopped
            && StopReasonOf(t.out) == Some(MapStopReason(s.finish))
  {
    ShellKeepsCalls(s, fs);
    var s1 := CloseText(EnsureShell(s).(stopped := true));
    CloseToolsKeepsCalls(s1, |s1.tools|, fs);
    CloseToolsKeepsRest(s1, |s1.tools|);
    CloseMessageKeepsCalls(CloseTools(s1, |s1.tools|), fs);
  }

  lemma ChoiceFollows(s: State, items: seq<Item>, c: Choice)
    requires Follows(s, items) && !s.stopped
    ensures var t := StepChoice(s, c);
            && Streams(t.tools, t.out, FragsOf(items) + c.tools) && TextOf(t.out) == TextIn(items) + c.content
            && t.finish == (if c.finish.Some? && c.finish.value != "" then c.finish.value else s.finish)
            && !t.stopped && StopReasonOf(t.out).None?
  {
    TextStreams(s, c.content, FragsOf(items));
    var s1 := StepText(s, c.content);
    FragmentsStream(s1, FragsOf(items), c.tools);
    FragmentsKeepText(s1, c.tools);
  }

  lemma ItemsSnoc(items: seq<Item>, item: Item)
    ensures Init(items + [item]) == items && Last(items + [item]) == item
    ensures (exists i :: 0 <= i < |items + [item]| && (items + [item])[i].Done?) <==>
            item.Done? || exists i :: 0 <= i < |items| && items[i].Done?
    ensures !HasChoice(item) ==> FragsOf(items + [item]) == FragsOf(items) && TextIn(items + [item]) == TextIn(items)
                                 && KeptFinish(items + [item]) == KeptFinish(items)
  {
    var next := items + [item];
    assert Init(next) == items;
    assert next[|items|] == item;
    assert forall i :: 0 <= i < |items| ==> next[i] == items[i];
    assert FragsOf(items) + [] == FragsOf(items);
    assert TextIn(items) + "" == TextIn(items);
  }

  lemma DataFollows(s: State, items: seq<Item>, item: Item)
    requires Follows(s, items) && HasChoice(item) && !s.stopped
    ensures Follows(Apply(s, item), items + [item])
  {
    ItemsSnoc(items, item);
    var s1 := StepUsage(s, item.chunk.usage);
    assert Follows(s1, items);
    ChoiceFollows(s1, items, item.chunk.choices[0]);
  }

  lemma ItemFollows(s: State, items: seq<Item>, item: Item)
    requires Follows(s, items) && (s.stopped ==> !HasChoice(item))
    ensures Follows(Apply(s, item), items + [item])
  {
    if HasChoice(item) {
      DataFollows(s, items, item);
    } else {
      ItemsSnoc(items, item);
      if item.Done? && !s.stopped {
        FinalizeKeepsCalls(s, FragsOf(items));
      }
    }
  }

  lemma {:induction false} RunFollows(items: seq<Item>)
    requires QuietAfterDone(items)
    ensures Follows(Run(items), items)
  {
    if items != [] {
      var front := Init(items);
      RunFollows(front);
      assert items == front + [Last(items)];
      ItemFollows(Run(front), front, Last(items));
    }
  }

  // ----- The batch side -----

  ghost predicate Records(b: Batch, fs: seq<Fragment>)
  {
    && b.order == Keys(fs)
    && (forall k :: k in b.accs <==> k in Keys(fs))
    && (forall k :: k in b.accs ==> b.accs[k] == FullCall(Of(fs, k)))
  }

  lemma FragmentRecords(b: Batch, fs: seq<Fragment>, f: Fragment)
    requires Records(b, fs)
    ensures Records(BatchFragment(b, f), fs + [f])
  {
    SnocFacts(fs, f);
    KeysDistinct(fs);
    SnocFacts(Of(fs, f.index), f);
  }

  lemma {:induction false} FragmentsRecord(b: Batch, fs: seq<Fragment>, gs: seq<Fragment>)
    requires Records(b, fs)
    ensures Records(BatchFragments(b, gs), fs + gs)
    ensures BatchFragments(b, gs) == b.(accs := BatchFragments(b, gs).accs, order := BatchFragments(b, gs).order)
  {
    if gs == [] {
      assert fs + gs == fs;
    } else {
      FragmentsRecord(b, fs, Init(gs));
      assert fs + gs == (fs + Init(gs)) + [Last(gs)];
      FragmentRecords(BatchFragments(b, Init(gs)), fs + Init(gs), Last(gs));
    }
  }

  lemma {:induction false} RunRecords(items: seq<Item>)
    requires DeltaOnly(items)
    ensures Records(BatchRun(items), FragsOf(items))
    ensures BatchRun(items).text == TextIn(items) && BatchRun(items).finish == LastFinish(items)
  {
    if items != [] {
      var front := Init(items);
      RunRecords(front);
      var b := BatchRun(front);
      if HasChoice(Last(items)) {
        var c := Last(items).chunk.choices[0];
        assert items[|items| - 1] == Last(items);
        var b1 := BatchContent(b, c);
        assert b1 == b.(text := b.text + c.content) by {
          assert c.content == "" ==> b.text + c.content == b.text;
        }
        FragmentsRecord(b1, FragsOf(front), c.tools);
      } else {
        assert FragsOf(front) + [] == FragsOf(front);
        assert TextIn(front) + "" == TextIn(front);
      }
    }
  }

  // ----- Comparing the lists -----

  function Present(cs: seq<Option<ToolCall>>): seq<ToolCall>
  {
    if cs == [] then [] else Present(Init(cs)) + (if Last(cs).Some? then [Last(cs).value] else [])
  }

  lemma {:induction false} PresentShorter(cs: seq<Option<ToolCall>>)
    ensures |Present(cs)| <= |cs|
  {
    if cs != [] {
      PresentShorter(Init(cs));
    }
  }

  function CallsAt(evs: seq<Event>, n: nat): seq<Option<ToolCall>>
  {
    seq(n, p requires 0 <= p < n => CallAt(evs, p + 1))
  }

  lemma {:induction false} CallsUpToPresent(evs: seq<Event>, n: nat)
    ensures CallsUpTo(evs, n) == Present(CallsAt(evs, n))
  {
    if n > 0 {
      CallsUpToPresent(evs, n - 1);
      assert Init(CallsAt(evs, n)) == CallsAt(evs, n - 1);
    }
  }

  lemma {:induction false} NoCallsAbove(evs: seq<Event>, n: nat, m: nat)
    requires n <= m && forall i :: n < i <= m ==> CallAt(evs, i).None?
    ensures CallsUpTo(evs, m) == CallsUpTo(evs, n)
    decreases m
  {
    if n < m {
      NoCallsAbove(evs, n, m - 1);
    }
  }

  lemma {:induction false} CallBelowMax(evs: seq<Event>, i: nat)
    ensures CallAt(evs, i).Some? ==> i <= MaxIndex(evs)
  {
    if evs != [] {
      CallBelowMax(Init(evs), i);
    }
  }

  lemma CallsOfIs(evs: seq<Event>, n: nat)
    requires forall i :: i > n ==> CallAt(evs, i).None?
    ensures CallsOf(evs) == CallsUpTo(evs, n)
  {
    var m := MaxIndex(evs);
    if m <= n {
      forall i | m < i <= n
        ensures CallAt(evs, i).None?
      {
        CallBelowMax(evs, i);
      }
      NoCallsAbove(evs, m, n);
    } else {
      NoCallsAbove(evs, n, m);
    }
  }

  function FullCalls(fs: seq<Fragment>, ks: seq<int>): (r: seq<ToolCall>)
    ensures |r| == |ks|
    ensures forall p :: 0 <= p < |ks| ==> r[p] == FullCall(Of(fs, ks[p]))
  {
    if ks == [] then [] else FullCalls(fs, Init(ks)) + [FullCall(Of(fs, Last(ks)))]
  }

  lemma {:induction false} ListIsFull(accs: map<int, ToolCall>, fs: seq<Fragment>, ks: seq<int>)
    requires forall p :: 0 <= p < |ks| ==> ks[p] in accs && accs[ks[p]] == FullCall(Of(fs, ks[p]))
    ensures ListCalls(accs, ks) == FullCalls(fs, ks)
  {
    if ks != [] {
      ListIsFull(accs, fs, Init(ks));
      assert ks[|ks| - 1] == Last(ks);
    }
  }

  /** Every tool call listed in `ks` is clean. */
  ghost predicate AllClean(fs: seq<Fragment>, ks: seq<int>)
  {
    ks == [] || (AllClean(fs, Init(ks)) && Clean(Of(fs, Last(ks))))
  }

  /** Every tool call of the response is clean. */
  ghost predicate CleanCalls(items: seq<Item>) {
    AllClean(FragsOf(items), Keys(FragsOf(items)))
  }

  /** A list with gaps is the full list exactly when every call is clean. */
  lemma {:induction false} PresentIffClean(cs: seq<Option<ToolCall>>, fs: seq<Fragment>, ks: seq<int>)
    requires |cs| == |ks| && forall p :: 0 <= p < |ks| ==> cs[p] == StreamCall(Of(fs, ks[p]))
    ensures Present(cs) == FullCalls(fs, ks) <==> AllClean(fs, ks)
  {
    if ks != [] {
      PresentShorter(Init(cs));
      PresentIffClean(Init(cs), fs, Init(ks));
      CallAgreement(Of(fs, Last(ks)));
      assert Last(cs) == StreamCall(Of(fs, Last(ks)));
      LastAgrees(Present(Init(cs)), Last(cs), FullCalls(fs, Init(ks)), FullCall(Of(fs, Last(ks))));
    }
  }

  lemma LastAgrees(a: seq<ToolCall>, c: Option<ToolCall>, full: seq<ToolCall>, d: ToolCall)
    requires |a| <= |full|
    ensures a + (if c.Some? then [c.value] else []) == full + [d] <==> a == full && c == Some(d)
  {
    if c.Some? && a + [c.value] == full + [d] {
      assert Init(a + [c.value]) == Init(full + [d]);
      assert Init(a + [c.value]) == a && Init(full + [d]) == full;
      assert Last(a + [c.value]) == Last(full + [d]);
    }
    if c.None? {
      assert a + [] == a;
    }
  }

  lemma StreamedCalls(out: seq<Event>, fs: seq<Fragment>, ks: seq<int>)
    requires forall p :: 0 <= p < |ks| ==> CallAt(out, p + 1) == StreamCall(Of(fs, ks[p]))
    requires forall i: nat :: i > |ks| ==> CallAt(out, i).None?
    ensures CallsOf(out) == FullCalls(fs, ks) <==> AllClean(fs, ks)
  {
    CallsOfIs(out, |ks|);
    CallsUpToPresent(out, |ks|);
    PresentIffClean(CallsAt(out, |ks|), fs, ks);
  }

  lemma RecordedCalls(b: Batch, fs: seq<Fragment>)
    requires Records(b, fs)
    ensures CallList(b) == FullCalls(fs, Keys(fs))
  {
    ListIsFull(b.accs, fs, Keys(fs));
  }

  lemma {:induction false} KeptIsLast(items: seq<Item>)
    ensures LastFinish(items) != "" ==> KeptFinish(items) == LastFinish(items)
  {
    if items != [] {
      KeptIsLast(Init(items));
    }
  }

  /** The last finish reason is not empty; or else what the stream kept maps to what the answer falls back
      on, which depends on whether there is a tool call. */
  predicate FinishAgrees(items: seq<Item>) {
    LastFinish(items) != ""
    || MapStopReason(KeptFinish(items)) == if FragsOf(items) == [] then "end_turn" else "tool_use"
  }

  lemma NoKeysIff(fs: seq<Fragment>)
    ensures Keys(fs) == [] <==> fs == []
  {
    if fs != [] && Last(fs).index in Keys(Init(fs)) {
      assert Keys(Init(fs)) != [];
    }
  }

  lemma CallsIffFragments(b: Batch, fs: seq<Fragment>)
    requires Records(b, fs)
    ensures CallList(b) == [] <==> fs == []
  {
    RecordedCalls(b, fs);
    NoKeysIff(fs);
  }

  lemma AnswerFallback(r: Extract)
    ensures AnswerStopReason(r) == if r.finish == "" && r.calls != [] then "tool_use" else MapStopReason(r.finish)
  {
  }

  lemma BatchStopReason(items: seq<Item>)
    requires DeltaOnly(items)
    ensures var b := BatchRun(items);
            AnswerStopReason(Extract(b.text, b.finish, CallList(b))) ==
            if LastFinish(items) == "" && FragsOf(items) != [] then "tool_use" else MapStopReason(LastFinish(items))
  {
    var b := BatchRun(items);
    RunRecords(items);
    CallsIffFragments(b, FragsOf(items));
    AnswerFallback(Extract(b.text, b.finish, CallList(b)));
  }

  lemma FinishFollows(items: seq<Item>)
    requires QuietAfterDone(items)
    ensures var t := Finish(Run(items));
            && Streams(t.tools, t.out, FragsOf(items)) && TextOf(t.out) == TextIn(items)
            && (t.out != [] ==> StopReasonOf(t.out) == Some(MapStopReason(KeptFinish(items))))
  {
    RunFollows(items);
    StartedIffOutput(items);
    var s := Run(items);
    if s.started && !s.stopped {
      FinalizeKeepsCalls(s, FragsOf(items));
    }
  }

  lemma CallsAgree(items: seq<Item>)
    requires QuietAfterDone(items) && DeltaOnly(items)
    ensures CallsOf(Finish(Run(items)).out) == CallList(BatchRun(items)) <==> CleanCalls(items)
  {
    FinishFollows(items);
    RunRecords(items);
    StreamedCalls(Finish(Run(items)).out, FragsOf(items), Keys(FragsOf(items)));
    RecordedCalls(BatchRun(items), FragsOf(items));
  }

  /** On delta-only input that is quiet after the terminator, once any event is emitted: the text read
      from the events is the batch text; the ordered tool calls are the same if and only if every call
      is clean; the stop reason is that of the non-streaming answer if and only if the finish reasons agree. */
  lemma StreamAgreesWithBatch(items: seq<Item>)
    requires QuietAfterDone(items) && DeltaOnly(items)
    ensures var out := Finish(Run(items)).out; var b := BatchRun(items); var r := Extract(b.text, b.finish, CallList(b));
            out != [] ==>
              && TextOf(out) == r.text
              && (CallsOf(out) == r.calls <==> CleanCalls(items))
              && (StopReasonOf(out) == Some(AnswerStopReason(r)) <==> FinishAgrees(items))
  {
    FinishFollows(items);
    RunRecords(items);
    KeptIsLast(items);
    CallsAgree(items);
    BatchStopReason(items);
  }

  lemma {:induction false} FragmentsStart(s: State, fs: seq<Fragment>)
    ensures StepFragments(s, fs).started <==> s.started || fs != []
    ensures fs == [] ==> StepFragments(s, fs) == s
  {
    if fs != [] {
      FragmentsStart(s, Init(fs));
    }
  }

  /** Nothing is emitted before the message is started. */
  lemma {:induction false} StartedIffOutput(items: seq<Item>)
    ensures !Run(items).started ==> Run(items).out == []
  {
    if items != [] {
      StartedIffOutput(Init(items));
      var s := Run(Init(items));
      ApplyKeepsStarted(s, Last(items));
      if !Run(items).started {
        match Last(items) {
          case Skip =>
          case Done =>
            FinalizeStarts(s);
          case Data(c) =>
            if c.choices != [] {
              FragmentsStart(StepText(StepUsage(s, c.usage), c.choices[0].content), c.choices[0].tools);
            }
        }
      }
    }
  }

  lemma FinalizeStarts(s: State)
    ensures s.stopped || Finalize(s).started
  {
    if !s.stopped {
      var s1 := CloseText(EnsureShell(s).(stopped := true));
      CloseToolsKeepsRest(s1, |s1.tools|);
    }
  }
}
