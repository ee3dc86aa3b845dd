/** The translation of OpenAI chunks into Anthropic events, as a transition system on values.
    `tools` lists the tool blocks in creation order, so the block at position `i` has content
    block index `i + 1`; index 0 belongs to the text block. */
module Stream {
  import opened Prelude
  import opened Sse

  // ----- Input -----

  datatype Fragment = Fragment(index: int, id: string, name: string, args: string)

  datatype ToolCall = ToolCall(id: string, name: string, args: string)

  /** A complete message inside a chunk; only the batch reassembler looks at it. */
  datatype Message = Message(content: string, tools: seq<ToolCall>)

  datatype Choice = Choice(content: string, tools: seq<Fragment>, message: Option<Message>, finish: Option<string>)

  datatype Usage = Usage(prompt: int, completion: int)

  datatype Chunk = Chunk(usage: Option<Usage>, choices: seq<Choice>)

  datatype Item = Skip | Done | Data(chunk: Chunk)

  function TextItem(text: string): Item {
    Data(Chunk(None, [Choice(text, [], None, None)]))
  }

  function ToolItem(f: Fragment): Item {
    Data(Chunk(None, [Choice("", [f], None, None)]))
  }

  /** The JSON decoder: None for a payload it rejects. */
  type Decoder = Bytes -> Option<Chunk>

  function ItemOf(decode: Decoder, payload: Option<Bytes>): Item
  {
    if payload.None? || payload.value == [] then Skip
    else if payload.value == DONE then Done
    else
      match decode(payload.value)
      case None => Skip
      case Some(c) => Data(c)
  }

  // ----- Output -----

  datatype BlockKind = Text | ToolUse(id: string, name: string)

  datatype Event =
    | MessageStart
    | BlockStart(index: nat, kind: BlockKind)
    | TextDelta(index: nat, text: string)
    | ArgsDelta(index: nat, json: string)
    | BlockStop(index: nat)
    | MessageDelta(stopReason: string, outputTokens: int)
    | MessageStop

  function MapStopReason(finish: string): string
  {
    if finish == "length" then "max_tokens"
    else if finish == "content_filter" then "stop_sequence"
    else if finish == "tool_calls" || finish == "function_call" then "tool_use"
    else "end_turn"
  }

  // ----- State -----

  datatype Tool = Tool(key: int, id: string, name: string, started: bool, closed: bool)

  datatype State = State(
    started: bool, textOpen: bool, textClosed: bool, stopped: bool,
    finish: string, inputToks: int, outputToks: int, text: string,
    tools: seq<Tool>, out: seq<Event>)

  const START: State := State(false, false, false, false, "", 0, 0, "", [], [])

  function Emit(s: State, e: Event): State {
    s.(out := s.out + [e])
  }

  function EnsureStart(s: State): State {
    if s.started then s else Emit(s.(started := true), MessageStart)
  }

  function EnsureText(s: State): State {
    if s.textOpen then s else Emit(s.(textOpen := true), BlockStart(0, Text))
  }

  function CloseText(s: State): State {
    if !s.textOpen || s.textClosed then s else Emit(s.(textClosed := true), BlockStop(0))
  }

  /** The position of the block for a tool-call index, or the next free position. */
  function Find(tools: seq<Tool>, key: int): (i: nat)
    ensures i <= |tools|
    ensures i < |tools| ==> tools[i].key == key
    ensures forall j :: 0 <= j < i ==> tools[j].key != key
  {
    if tools == [] || tools[0].key == key then 0 else 1 + Find(tools[1..], key)
  }

  /** Find or append the block, and keep the first id and the first name seen for it. */
  function Register(tools: seq<Tool>, f: Fragment): (r: seq<Tool>)
    ensures Find(tools, f.index) < |r|
  {
    var i := Find(tools, f.index);
    var t := if i < |tools| then tools[i] else Tool(f.index, "", "", false, false);
    var t' := t.(id := if f.id != "" && t.id == "" then f.id else t.id,
                 name := if f.name != "" && t.name == "" then f.name else t.name);
    if i < |tools| then tools[i := t'] else tools + [t']
  }

  function OpenTool(s: State, i: nat): State
    requires i < |s.tools|
  {
    var t := s.tools[i];
    if t.started || t.name == "" then s
    else
      var s' := CloseText(s);
      Emit(s'.(tools := s'.tools[i := t.(started := true)]), BlockStart(i + 1, ToolUse(t.id, t.name)))
  }

  function SendArgs(s: State, i: nat, json: string): State
    requires i < |s.tools|
  {
    if json != "" && s.tools[i].started then Emit(s, ArgsDelta(i + 1, json)) else s
  }

  function StepFragment(s: State, f: Fragment): State
  {
    var s1 := EnsureStart(s);
    var i := Find(s1.tools, f.index);
    SendArgs(OpenTool(s1.(tools := Register(s1.tools, f)), i), i, f.args)
  }

  lemma StartFirst(s: State, f: Fragment)
    ensures StepFragment(s, f) == StepFragment(EnsureStart(s), f)
  {
  }

  function StepFragments(s: State, fs: seq<Fragment>): State
  {
    if fs == [] then s else StepFragment(StepFragments(s, Init(fs)), Last(fs))
  }

  function StepText(s: State, content: string): State
  {
    if content == "" then s
    else
      var s1 := EnsureText(EnsureStart(s));
      Emit(s1.(text := s1.text + content), TextDelta(0, content))
  }

  function StepUsage(s: State, u: Option<Usage>): State
  {
    if u.None? then s else s.(inputToks := u.value.prompt, outputToks := u.value.completion)
  }

  function StepFinish(s: State, finish: Option<string>): State
  {
    if finish.None? || finish.value == "" then s else s.(finish := finish.value)
  }

  function CloseTool(s: State, i: nat): State
    requires i < |s.tools|
  {
    var t := s.tools[i];
    if !t.started || t.closed then s
    else Emit(s.(tools := s.tools[i := t.(closed := true)]), BlockStop(i + 1))
  }

  /** Close the first `n` blocks in creation order. */
  function CloseTools(s: State, n: nat): (r: State)
    requires n <= |s.tools|
    ensures |r.tools| == |s.tools|
  {
    if n == 0 then s else CloseTool(CloseTools(s, n - 1), n - 1)
  }

  function CloseMessage(s: State): State
  {
    Emit(Emit(s, MessageDelta(MapStopReason(s.finish), s.outputToks)), MessageStop)
  }

  /** Open the shell of a message that has no block at all. */
  function EnsureShell(s: State): State
  {
    var s1 := EnsureStart(s);
    if !s1.textOpen && s1.tools == [] then EnsureText(s1) else s1
  }

  function Finalize(s: State): State
  {
    if s.stopped then s
    else
      var s1 := CloseText(EnsureShell(s).(stopped := true));
      CloseMessage(CloseTools(s1, |s1.tools|))
  }

  function StepChoice(s: State, c: Choice): State
  {
    StepFinish(StepFragments(StepText(s, c.content), c.tools), c.finish)
  }

  function Apply(s: State, item: Item): State
  {
    match item
    case Skip => s
    case Done => Finalize(s)
    case Data(c) =>
      var s1 := StepUsage(s, c.usage);
      if c.choices == [] then s1 else StepChoice(s1, c.choices[0])
  }

  function Run(items: seq<Item>): State
  {
    if items == [] then START else Apply(Run(Init(items)), Last(items))
  }

  /** The end of the request: terminal events are guaranteed once anything was sent. */
  function Finish(s: State): State
  {
    if s.started && !s.stopped then Finalize(s) else s
  }

  // ----- The writer: lines, carry and the error buffer -----

  datatype Writer = Writer(status: int, errBuf: Bytes, feed: Feed<State>)

  function LineItem(decode: Decoder, line: Bytes): Item
  {
    ItemOf(decode, StreamPayload(TrimRightCR(line)))
  }

  function LineStep(decode: Decoder): (State, Bytes) -> State
  {
    (s: State, line: Bytes) => Apply(s, LineItem(decode, line))
  }

  predicate Buffering(w: Writer) {
    !w.feed.st.started && w.status >= 400
  }

  /** `streamWriter.Write`. */
  function Write(decode: Decoder, w: Writer, p: Bytes): Writer
  {
    if Buffering(w) then w.(errBuf := w.errBuf + p)
    else w.(feed := Push(LineStep(decode), w.feed, p))
  }

  function WriteAll(decode: Decoder, w: Writer, ps: seq<Bytes>): Writer
    decreases |ps|
  {
    if ps == [] then w else WriteAll(decode, Write(decode, w, ps[0]), ps[1..])
  }

  /** The tail of the handler: the carried line is processed, then the message is completed. */
  function Tail(decode: Decoder, w: Writer): State
  {
    var s := if w.feed.carry == [] then w.feed.st else LineStep(decode)(w.feed.st, w.feed.carry);
    Finish(s)
  }

  lemma {:induction false} FragmentsKeepStarted(s: State, fs: seq<Fragment>)
    ensures s.started ==> StepFragments(s, fs).started
  {
    if fs != [] {
      FragmentsKeepStarted(s, Init(fs));
    }
  }

  lemma {:induction false} CloseToolsKeepsRest(s: State, n: nat)
    requires n <= |s.tools|
    ensures CloseTools(s, n) == s.(tools := CloseTools(s, n).tools, out := CloseTools(s, n).out)
  {
    if n > 0 {
      CloseToolsKeepsRest(s, n - 1);
    }
  }

  lemma ApplyKeepsStarted(s: State, item: Item)
    ensures s.started ==> Apply(s, item).started
  {
    match item {
      case Skip =>
      case Done =>
        if !s.stopped {
          var s1 := CloseText(EnsureShell(s).(stopped := true));
          CloseToolsKeepsRest(s1, |s1.tools|);
        }
      case Data(c) =>
        if c.choices != [] {
          FragmentsKeepStarted(StepText(StepUsage(s, c.usage), c.choices[0].content), c.choices[0].tools);
        }
    }
  }

  lemma {:induction false} LinesKeepStarted(decode: Decoder, s: State, lines: seq<Bytes>)
    ensures s.started ==> FoldLines(LineStep(decode), s, lines).started
    decreases |lines|
  {
    if lines != [] {
      ApplyKeepsStarted(s, LineItem(decode, lines[0]));
      LinesKeepStarted(decode, LineStep(decode)(s, lines[0]), lines[1..]);
    }
  }

  lemma WriteConcat(decode: Decoder, w: Writer, p: Bytes, q: Bytes)
    ensures Write(decode, Write(decode, w, p), q) == Write(decode, w, p + q)
  {
    if Buffering(w) {
      assert w.errBuf + (p + q) == (w.errBuf + p) + q;
    } else {
      LinesKeepStarted(decode, w.feed.st, Init(Split(w.feed.carry + p)));
      PushConcat(LineStep(decode), w.feed, p, q);
    }
  }

  /** However the upstream body is cut into Write calls, state, carry, error buffer and emitted
      events are those of a single call; this holds for every status. */
  lemma {:induction false} WriterFragmentation(decode: Decoder, w: Writer, ps: seq<Bytes>)
    requires LF !in w.feed.carry
    ensures WriteAll(decode, w, ps) == Write(decode, w, Concat(ps))
    decreases |ps|
  {
    if ps == [] {
      FragmentationIndependent(LineStep(decode), w.feed, []);
      assert w.errBuf + [] == w.errBuf;
    } else {
      PushKeepsCarryOpen(LineStep(decode), w.feed, ps[0]);
      WriterFragmentation(decode, Write(decode, w, ps[0]), ps[1..]);
      WriteConcat(decode, w, ps[0], Concat(ps[1..]));
    }
  }

  // ----- From bytes to items -----

  function ItemsOf(decode: Decoder, lines: seq<Bytes>): (items: seq<Item>)
    ensures |items| == |lines|
  {
    seq(|lines|, i requires 0 <= i < |lines| => LineItem(decode, lines[i]))
  }

  lemma {:induction false} FoldIsRun(decode: Decoder, lines: seq<Bytes>)
    ensures FoldLines(LineStep(decode), START, lines) == Run(ItemsOf(decode, lines))
    decreases |lines|
  {
    if lines != [] {
      var front := Init(lines);
      FoldIsRun(decode, front);
      assert lines == front + [Last(lines)];
      FoldLinesSnoc(LineStep(decode), START, front, Last(lines));
      assert Init(ItemsOf(decode, lines)) == ItemsOf(decode, front);
      assert Last(ItemsOf(decode, lines)) == LineItem(decode, Last(lines));
    }
  }

  const FRESH: Writer := Writer(200, [], Feed([], START))

  /** The whole streaming path from bytes to the final state: a run over the items of all lines. */
  lemma StreamedBody(decode: Decoder, ps: seq<Bytes>)
    ensures Tail(decode, WriteAll(decode, FRESH, ps)) == Finish(Run(ItemsOf(decode, Split(Concat(ps)))))
  {
    var body := Concat(ps);
    var lines := Split(body);
    WriterFragmentation(decode, FRESH, ps);
    assert [] + body == body;
    FoldIsRun(decode, Init(lines));
    FoldIsRun(decode, lines);
    assert ItemsOf(decode, Init(lines)) == Init(ItemsOf(decode, lines));
    assert Last(ItemsOf(decode, lines)) == LineItem(decode, Last(lines));
    if Last(lines) == [] {
      assert TrimRightCR([]) == [];
    }
  }
}
