/** What the stream writer says at the end of a message, read off the input: stop reason, token counts,
    and what becomes of an error body. */
module Closing {
  import opened Prelude
  import opened Sse
  import opened Stream
  import opened Reassembly
  import opened Agreement

  // ----- Read off the input -----

  /** The items up to the first terminator. */
  function BeforeDone(items: seq<Item>): seq<Item>
    decreases |items|
  {
    if items == [] || items[0].Done? then [] else [items[0]] + BeforeDone(items[1..])
  }

  /** The last usage sent. */
  function LastUsage(items: seq<Item>): Usage
  {
    if items == [] then Usage(0, 0)
    else if Last(items).Data? && Last(items).chunk.usage.Some? then Last(items).chunk.usage.value
    else LastUsage(Init(items))
  }

  predicate HasDone(items: seq<Item>) {
    exists i :: 0 <= i < |items| && items[i].Done?
  }

  /** The Anthropic stop reason of an OpenAI finish reason. */
  predicate Means(finish: string, stop: string)
  {
    && (finish == "length" ==> stop == "max_tokens")
    && (finish == "content_filter" ==> stop == "stop_sequence")
    && (finish == "tool_calls" || finish == "function_call" ==> stop == "tool_use")
    && (finish != "length" && finish != "content_filter" && finish != "tool_calls" && finish != "function_call"
        ==> stop == "end_turn")
  }

  lemma MapMeans(finish: string)
    ensures Means(finish, MapStopReason(finish))
  {
  }

  lemma {:induction false} BeforeDoneSnoc(items: seq<Item>, item: Item)
    ensures BeforeDone(items + [item]) ==
            if HasDone(items) || item.Done? then BeforeDone(items) else BeforeDone(items) + [item]
    ensures !HasDone(items) ==> BeforeDone(items) == items
    decreases |items|
  {
    if items == [] {
      assert [item][1..] == [];
    } else {
      assert (items + [item])[1..] == items[1..] + [item];
      BeforeDoneSnoc(items[1..], item);
      assert items == [items[0]] + items[1..];
      assert HasDone(items) <==> items[0].Done? || HasDone(items[1..]) by {
        if HasDone(items) && !items[0].Done? {
          var i :| 0 <= i < |items| && items[i].Done?;
          assert items[1..][i - 1].Done?;
        }
        if HasDone(items[1..]) {
          var i :| 0 <= i < |items| - 1 && items[1..][i].Done?;
          assert items[i + 1].Done?;
        }
      }
    }
  }

  lemma DoneSnoc(items: seq<Item>, item: Item)
    ensures HasDone(items + [item]) <==> HasDone(items) || item.Done?
  {
    if HasDone(items) {
      var i :| 0 <= i < |items| && items[i].Done?;
      assert (items + [item])[i].Done?;
    }
    if item.Done? {
      assert (items + [item])[|items|].Done?;
    }
    if HasDone(items + [item]) && !item.Done? {
      var i :| 0 <= i < |items| + 1 && (items + [item])[i].Done?;
      assert items[i].Done?;
    }
  }

  // ----- The message_delta events -----

  function Deltas(evs: seq<Event>): seq<Event>
  {
    if evs == [] then [] else Deltas(Init(evs)) + (if Last(evs).MessageDelta? then [Last(evs)] else [])
  }

  /** No message_delta is emitted, and what it will say is the same. */
  predicate SameClose(s: State, t: State) {
    && Deltas(t.out) == Deltas(s.out) && t.finish == s.finish && t.stopped == s.stopped
    && t.inputToks == s.inputToks && t.outputToks == s.outputToks
  }

  lemma EmitDelta(s: State, e: Event)
    ensures Deltas(Emit(s, e).out) == Deltas(s.out) + (if e.MessageDelta? then [e] else [])
    ensures !e.MessageDelta? ==> SameClose(s, Emit(s, e))
  {
    InitOfConcat(s.out, [e]);
    assert s.out + Init([e]) == s.out;
    assert Deltas(s.out) + [] == Deltas(s.out);
  }

  lemma StartSameClose(s: State)
    ensures SameClose(s, EnsureStart(s))
  {
    EmitDelta(s.(started := true), MessageStart);
  }

  lemma OpenSameClose(s: State, i: nat)
    requires i < |s.tools|
    ensures SameClose(s, OpenTool(s, i))
  {
    var t := s.tools[i];
    EmitDelta(s.(textClosed := true), BlockStop(0));
    var s' := CloseText(s);
    EmitDelta(s'.(tools := s'.tools[i := t.(started := true)]), BlockStart(i + 1, ToolUse(t.id, t.name)));
  }

  lemma FragmentSameClose(s: State, f: Fragment)
    ensures SameClose(s, StepFragment(s, f))
  {
    StartSameClose(s);
    var s1 := EnsureStart(s);
    var i := Find(s1.tools, f.index);
    var s2 := s1.(tools := Register(s1.tools, f));
    OpenSameClose(s2, i);
    EmitDelta(OpenTool(s2, i), ArgsDelta(i + 1, f.args));
  }

  lemma {:induction false} FragmentsSameClose(s: State, fs: seq<Fragment>)
    ensures SameClose(s, StepFragments(s, fs))
  {
    if fs != [] {
      FragmentsSameClose(s, Init(fs));
      FragmentSameClose(StepFragments(s, Init(fs)), Last(fs));
    }
  }

  lemma TextSameClose(s: State, content: string)
    ensures SameClose(s, StepText(s, content))
  {
    if content != "" {
      StartSameClose(s);
      var s1 := EnsureStart(s);
      EmitDelta(s1.(textOpen := true), BlockStart(0, Text));
      var s2 := EnsureText(s1);
      EmitDelta(s2.(text := s2.text + content), TextDelta(0, content));
    }
  }

  lemma {:induction false} CloseToolsSameClose(s: State, n: nat)
    requires n <= |s.tools|
    ensures SameClose(s, CloseTools(s, n))
  {
    if n > 0 {
      CloseToolsSameClose(s, n - 1);
      var r := CloseTools(s, n - 1);
      EmitDelta(r.(tools := r.tools[n - 1 := r.tools[n - 1].(closed := true)]), BlockStop(n));
    }
  }

  /** Finalisation emits one message_delta, with the finish reason and output tokens known by then. */
  lemma FinalizeDelta(s: State)
    requires !s.stopped
    ensures var t := Finalize(s);
            && t.stopped && Deltas(t.out) == Deltas(s.out) + [MessageDelta(MapStopReason(s.finish), s.outputToks)]
            && t.inputToks == s.inputToks && t.outputToks == s.outputToks
  {
    StartSameClose(s);
    var s1 := EnsureStart(s);
    EmitDelta(s1.(textOpen := true), BlockStart(0, Text));
    var s2 := EnsureShell(s).(stopped := true);
    EmitDelta(s2.(textClosed := true), BlockStop(0));
    var s3 := CloseText(s2);
    CloseToolsSameClose(s3, |s3.tools|);
    var s4 := CloseTools(s3, |s3.tools|);
    var e := MessageDelta(MapStopReason(s4.finish), s4.outputToks);
    EmitDelta(s4, e);
    EmitDelta(Emit(s4, e), MessageStop);
  }

  // ----- Every run -----

  /** What the state knows about the end of the message. */
  ghost predicate Knows(s: State, items: seq<Item>)
  {
    && s.inputToks == LastUsage(items).prompt && s.outputToks == LastUsage(items).completion
    && (s.stopped <==> HasDone(items))
    && (!s.stopped ==> s.finish == KeptFinish(items) && Deltas(s.out) == [])
    && (s.stopped ==> var before := BeforeDone(items);
                      Deltas(s.out) == [MessageDelta(MapStopReason(KeptFinish(before)), LastUsage(before).completion)])
  }

  lemma ChoiceCloses(s: State, c: Choice)
    ensures var t := StepChoice(s, c);
            && Deltas(t.out) == Deltas(s.out) && t.stopped == s.stopped
            && t.inputToks == s.inputToks && t.outputToks == s.outputToks
            && t.finish == if c.finish.Some? && c.finish.value != "" then c.finish.value else s.finish
  {
    TextSameClose(s, c.content);
    FragmentsSameClose(StepText(s, c.content), c.tools);
  }

  /** How one more chunk changes what is read off the input. */
  lemma ChunkReadings(items: seq<Item>, c: Chunk)
    ensures var all := items + [Data(c)];
            && LastUsage(all) == (if c.usage.Some? then c.usage.value else LastUsage(items))
            && KeptFinish(all) == (if c.choices != [] && c.choices[0].finish.Some? && c.choices[0].finish.value != ""
                                   then c.choices[0].finish.value else KeptFinish(items))
  {
    var all := items + [Data(c)];
    assert Init(all) == items && Last(all) == Data(c);
  }

  lemma DataKnows(s: State, items: seq<Item>, c: Chunk)
    requires Knows(s, items)
    ensures Knows(Stream.Apply(s, Data(c)), items + [Data(c)])
  {
    ChunkReadings(items, c);
    DoneSnoc(items, Data(c));
    BeforeDoneSnoc(items, Data(c));
    if c.choices != [] {
      ChoiceCloses(StepUsage(s, c.usage), c.choices[0]);
    }
  }

  lemma DoneKnows(s: State, items: seq<Item>)
    requires Knows(s, items)
    ensures Knows(Finalize(s), items + [Done])
  {
    var all := items + [Done];
    assert Init(all) == items && Last(all) == Done;
    DoneSnoc(items, Done);
    BeforeDoneSnoc(items, Done);
    if !s.stopped {
      FinalizeDelta(s);
    }
  }

  lemma {:induction false} RunKnows(items: seq<Item>)
    ensures Knows(Stream.Run(items), items)
  {
    if items != [] {
      RunKnows(Init(items));
      assert items == Init(items) + [Last(items)];
      match Last(items) {
        case Skip =>
          DoneSnoc(Init(items), Skip);
          BeforeDoneSnoc(Init(items), Skip);
          assert !HasChoice(Skip);
        case Done =>
          DoneKnows(Stream.Run(Init(items)), Init(items));
        case Data(c) =>
          DataKnows(Stream.Run(Init(items)), Init(items), c);
      }
    }
  }

  /** Whatever the upstream sends, even behind the terminator: once any event is emitted there is exactly
      one message_delta. Its stop reason is what the last non-empty finish reason before the terminator
      means, and its output tokens are the last completion count sent before the terminator. */
  lemma StreamCloses(items: seq<Item>)
    ensures var out := Finish(Stream.Run(items)).out; var before := BeforeDone(items);
            out != [] ==>
              exists stop :: Means(KeptFinish(before), stop)
                             && Deltas(out) == [MessageDelta(stop, LastUsage(before).completion)]
  {
    var s := Stream.Run(items);
    var before := BeforeDone(items);
    var stop := MapStopReason(KeptFinish(before));
    RunKnows(items);
    StartedIffOutput(items);
    MapMeans(KeptFinish(before));
    BeforeDoneSnoc(items, Skip);
    if s.started && !s.stopped {
      FinalizeDelta(s);
    }
    var out := Finish(s).out;
    assert out != [] ==> Means(KeptFinish(before), stop) && Deltas(out) == [MessageDelta(stop, LastUsage(before).completion)];
  }

  /** The stop reason a client reads, for input that is quiet behind the terminator. */
  lemma StreamStopReason(items: seq<Item>)
    requires QuietAfterDone(items)
    ensures var out := Finish(Stream.Run(items)).out;
            out != [] ==> StopReasonOf(out).Some? && Means(KeptFinish(items), StopReasonOf(out).value)
  {
    FinishFollows(items);
    MapMeans(KeptFinish(items));
  }

  /** The stop reason of the non-streaming answer: a tool call without a finish reason means tool_use. */
  lemma AnswerStops(items: seq<Item>)
    requires DeltaOnly(items)
    ensures var b := BatchRun(items); var stop := AnswerStopReason(Extract(b.text, b.finish, CallList(b)));
            if LastFinish(items) == "" && FragsOf(items) != [] then stop == "tool_use"
            else Means(LastFinish(items), stop)
  {
    BatchStopReason(items);
    MapMeans(LastFinish(items));
  }

  /** Token counts after any run: the last usage sent. */
  lemma TokensAreLastUsage(items: seq<Item>)
    ensures Stream.Run(items).inputToks == LastUsage(items).prompt
    ensures Stream.Run(items).outputToks == LastUsage(items).completion
  {
    RunKnows(items);
  }

  // ----- Error bodies -----

  /** A body that comes with an error status is kept byte for byte and starts no message; with any other
      status nothing is kept. */
  lemma ErrorBodyIsKept(decode: Decoder, status: int, ps: seq<Bytes>)
    ensures var w := WriteAll(decode, FRESH.(status := status), ps);
            && (status >= 400 ==> w.errBuf == Concat(ps) && Tail(decode, w).out == [])
            && (status < 400 ==> w.errBuf == [])
            && (status < 400 ==> Tail(decode, w) == Finish(Stream.Run(ItemsOf(decode, Split(Concat(ps))))))
  {
    WriterFragmentation(decode, FRESH.(status := status), ps);
    WriterFragmentation(decode, FRESH, ps);
    StreamedBody(decode, ps);
    assert [] + Concat(ps) == Concat(ps);
  }

  // ----- The text block -----

  predicate OpensText(evs: seq<Event>) {
    exists i :: 0 <= i < |evs| && evs[i].BlockStart? && evs[i].index == 0
  }

  lemma OpensSnoc(evs: seq<Event>, e: Event)
    ensures OpensText(evs + [e]) <==> OpensText(evs) || (e.BlockStart? && e.index == 0)
  {
    var all := evs + [e];
    if OpensText(evs) {
      var i :| 0 <= i < |evs| && evs[i].BlockStart? && evs[i].index == 0;
      assert all[i] == evs[i];
    }
    assert all[|evs|] == e;
  }

  /** The flag says whether the text block was opened. */
  ghost predicate Tells(s: State) {
    s.textOpen <==> OpensText(s.out)
  }

  lemma EmitTells(s: State, e: Event)
    requires Tells(s) && !(e.BlockStart? && e.index == 0)
    ensures Tells(Emit(s, e))
  {
    OpensSnoc(s.out, e);
  }

  lemma StartTells(s: State)
    requires Tells(s)
    ensures Tells(EnsureStart(s)) && EnsureStart(s).textOpen == s.textOpen
  {
    EmitTells(s.(started := true), MessageStart);
  }

  lemma FragmentTells(s: State, f: Fragment)
    requires Tells(s)
    ensures Tells(StepFragment(s, f)) && StepFragment(s, f).textOpen == s.textOpen
  {
    StartTells(s);
    var s1 := EnsureStart(s);
    var i := Find(s1.tools, f.index);
    var s2 := s1.(tools := Register(s1.tools, f));
    var t := s2.tools[i];
    EmitTells(s2.(textClosed := true), BlockStop(0));
    var s3 := CloseText(s2);
    EmitTells(s3.(tools := s3.tools[i := t.(started := true)]), BlockStart(i + 1, ToolUse(t.id, t.name)));
    EmitTells(OpenTool(s2, i), ArgsDelta(i + 1, f.args));
  }

  lemma {:induction false} FragmentsTell(s: State, fs: seq<Fragment>)
    requires Tells(s)
    ensures Tells(StepFragments(s, fs)) && StepFragments(s, fs).textOpen == s.textOpen
  {
    if fs != [] {
      FragmentsTell(s, Init(fs));
      FragmentTells(StepFragments(s, Init(fs)), Last(fs));
    }
  }

  lemma TextTells(s: State, content: string)
    requires Tells(s)
    ensures Tells(StepText(s, content)) && StepText(s, content).textOpen == (s.textOpen || content != "")
  {
    if content != "" {
      StartTells(s);
      var s1 := EnsureStart(s);
      OpensSnoc(s1.out, BlockStart(0, Text));
      var s2 := EnsureText(s1);
      EmitTells(s2.(text := s2.text + content), TextDelta(0, content));
    }
  }

  lemma {:induction false} CloseToolsTells(s: State, n: nat)
    requires Tells(s) && n <= |s.tools|
    ensures Tells(CloseTools(s, n)) && CloseTools(s, n).textOpen == s.textOpen
  {
    if n > 0 {
      CloseToolsTells(s, n - 1);
      var r := CloseTools(s, n - 1);
      EmitTells(r.(tools := r.tools[n - 1 := r.tools[n - 1].(closed := true)]), BlockStop(n));
    }
  }

  /** Finalisation opens a text block exactly in a message without text and without tool blocks. */
  lemma FinalizeTells(s: State)
    requires Tells(s)
    ensures Tells(Finalize(s))
    ensures !s.stopped ==> (Finalize(s).textOpen <==> s.textOpen || s.tools == [])
  {
    if !s.stopped {
      StartTells(s);
      var s1 := EnsureStart(s);
      OpensSnoc(s1.out, BlockStart(0, Text));
      var s2 := EnsureShell(s).(stopped := true);
      EmitTells(s2.(textClosed := true), BlockStop(0));
      var s3 := CloseText(s2);
      CloseToolsTells(s3, |s3.tools|);
      var s4 := CloseTools(s3, |s3.tools|);
      var e := MessageDelta(MapStopReason(s4.finish), s4.outputToks);
      EmitTells(s4, e);
      EmitTells(Emit(s4, e), MessageStop);
    }
  }

  /** While the message is open: whether there was text, and whether there was a tool-call fragment. */
  lemma {:induction false} RunTells(items: seq<Item>)
    requires !HasDone(items)
    ensures var s := Stream.Run(items);
            Tells(s) && !s.stopped && (s.textOpen <==> TextIn(items) != "") && (s.tools == [] <==> FragsOf(items) == [])
  {
    RunKnows(items);
    if items == [] {
      assert !OpensText([]);
    } else {
      var front := Init(items);
      assert items == front + [Last(items)];
      DoneSnoc(front, Last(items));
      RunTells(front);
      var s := Stream.Run(front);
      if HasChoice(Last(items)) {
        var c := Last(items).chunk.choices[0];
        var s1 := StepUsage(s, Last(items).chunk.usage);
        TextTells(s1, c.content);
        FragmentsTell(StepText(s1, c.content), c.tools);
        FragmentsRegister(StepText(s1, c.content), c.tools);
      }
    }
  }

  lemma {:induction false} FragmentsRegister(s: State, fs: seq<Fragment>)
    ensures StepFragments(s, fs).tools == [] <==> s.tools == [] && fs == []
    ensures |StepFragments(s, fs).tools| >= |s.tools|
  {
    if fs != [] {
      FragmentsRegister(s, Init(fs));
    }
  }

  /** A message that ends with its terminator, or with the stream, has a text block if and only if it has text
      or no tool-call fragment: a client never sees a message without any block because nothing came. */
  lemma TextBlockIff(items: seq<Item>, done: bool)
    requires !HasDone(items)
    ensures var out := Finish(Stream.Run(if done then items + [Done] else items)).out;
            out != [] ==> (OpensText(out) <==> TextIn(items) != "" || FragsOf(items) == [])
  {
    RunTells(items);
    StartedIffOutput(items);
    var s := Stream.Run(items);
    FinalizeTells(s);
    assert Init(items + [Done]) == items && Last(items + [Done]) == Done;
    if done {
      FinalizeDelta(s);
    }
  }
}
