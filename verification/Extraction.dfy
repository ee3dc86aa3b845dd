/** What the batch reassembler reads from a captured body, spelled out from bytes and items. */
module Extraction {
  import opened Prelude
  import opened Sse
  import opened Stream
  import opened Reassembly
  import opened Agreement

  // ----- Bytes -----

  /** A body whose first byte behind white space is an opening brace, and which decodes, is read whole:
      text, finish reason and calls are those of the decoded response. */
  lemma JsonIsReadWhole(decode: Decoder, decodeBody: BodyDecoder, body: Bytes, core: Bytes)
    requires IsCore(body, core) && core != [] && core[0] == 123 && decodeBody(core).Some?
    ensures ExtractSpec(decode, decodeBody, body) == decodeBody(core).value
  {
    CoreIsTrimmed(body, core);
  }

  /** Every other body is read line by line. */
  lemma OthersAreReadByLine(decode: Decoder, decodeBody: BodyDecoder, body: Bytes, core: Bytes)
    requires IsCore(body, core) && (core == [] || core[0] != 123 || decodeBody(core).None?)
    ensures ExtractSpec(decode, decodeBody, body) == FromLines(decode, body)
  {
    CoreIsTrimmed(body, core);
  }

  /** What a line means to both readers: nothing, the terminator `[DONE]`, or what its payload decodes to. */
  lemma LineMeans(decode: Decoder, line: Bytes, rest: Bytes, core: Bytes)
    requires line == [100, 97, 116, 97, 58] + rest && IsCore(rest, core) && !([100, 97, 116, 97, 58] <= core)
    ensures LineItem(decode, line) == BatchLineItem(decode, line)
    ensures LineItem(decode, line) ==
            if core == [] then Skip
            else if core == [91, 68, 79, 78, 69, 93] then Done
            else if decode(core).Some? then Data(decode(core).value)
            else Skip
  {
    PayloadIsCore(line, rest, core);
    PayloadIgnoresCR(line);
  }

  lemma OtherLinesMeanNothing(decode: Decoder, line: Bytes)
    requires !([100, 97, 116, 97, 58] <= line)
    ensures LineItem(decode, line) == Skip && BatchLineItem(decode, line) == Skip
  {
    OtherLinesCarryNothing(line);
    PayloadIgnoresCR(line);
  }

  /** Scanning stops at the first line of 4 MiB or more; an empty last line is no line. */
  lemma {:induction false} ScannedUpTo(lines: seq<Bytes>, n: nat)
    requires n < |lines| && |lines[n]| >= 4 * 1024 * 1024
    requires forall i :: 0 <= i < n ==> |lines[i]| < 4 * 1024 * 1024
    ensures Scanned(lines) == lines[..n]
  {
    if n > 0 {
      ScannedUpTo(lines[1..], n - 1);
      assert lines[..n] == [lines[0]] + lines[1..][..n - 1];
    }
  }

  // ----- Items, complete messages included -----

  /** A delta with text is shown, or else the text of a complete message. */
  function Shown(item: Item): string
  {
    if !HasChoice(item) then ""
    else
      var c := item.chunk.choices[0];
      if c.content != "" then c.content else if c.message.Some? then c.message.value.content else ""
  }

  function ShownText(items: seq<Item>): string
  {
    if items == [] then "" else ShownText(Init(items)) + Shown(Last(items))
  }

  /** The tool calls of the complete messages that count. */
  function MessageTools(items: seq<Item>): seq<ToolCall>
  {
    if items == [] then [] else MessageTools(Init(items)) + ToolsIn(Last(items))
  }

  function ToolsIn(item: Item): seq<ToolCall>
  {
    if HasChoice(item) && item.chunk.choices[0].content == "" && item.chunk.choices[0].message.Some?
    then item.chunk.choices[0].message.value.tools else []
  }

  lemma {:induction false} FragmentsLeaveText(b: Batch, fs: seq<Fragment>)
    ensures BatchFragments(b, fs).text == b.text && BatchFragments(b, fs).finish == b.finish
  {
    if fs != [] {
      FragmentsLeaveText(b, Init(fs));
    }
  }

  lemma {:induction false} CallsLeaveText(b: Batch, cs: seq<ToolCall>)
    ensures BatchCalls(b, cs).text == b.text && BatchCalls(b, cs).finish == b.finish
  {
    if cs != [] {
      CallsLeaveText(b, Init(cs));
    }
  }

  lemma ChoiceText(b: Batch, c: Choice)
    ensures var r := BatchChoice(b, c);
            && r.text == b.text + Shown(Data(Chunk(None, [c])))
            && r.finish == if c.finish.Some? then c.finish.value else b.finish
  {
    var b2 := BatchContent(b, c);
    if c.content == "" && c.message.Some? {
      CallsLeaveText(b.(text := b.text + c.message.value.content), c.message.value.tools);
    }
    assert b.text + "" == b.text;
    FragmentsLeaveText(b2, c.tools);
  }

  /** Text and finish reason of any run, complete messages included. */
  lemma {:induction false} BatchReads(items: seq<Item>)
    ensures BatchRun(items).text == ShownText(items) && BatchRun(items).finish == LastFinish(items)
  {
    if items != [] {
      BatchReads(Init(items));
      if HasChoice(Last(items)) {
        ChoiceText(BatchRun(Init(items)), Last(items).chunk.choices[0]);
      }
    }
  }

  /** The recorded calls are `cs`, numbered from 0. */
  ghost predicate Numbered(b: Batch, cs: seq<ToolCall>)
  {
    && |b.order| == |cs|
    && (forall i :: 0 <= i < |cs| ==> b.order[i] == i && i in b.accs && b.accs[i] == cs[i])
    && (forall k :: k in b.accs ==> 0 <= k < |cs|)
  }

  lemma {:induction false} CallsNumbered(b: Batch, cs: seq<ToolCall>, more: seq<ToolCall>)
    requires Numbered(b, cs)
    ensures Numbered(BatchCalls(b, more), cs + more)
  {
    if more == [] {
      assert cs + more == cs;
    } else {
      CallsNumbered(b, cs, Init(more));
      Associative(cs, Init(more), [Last(more)]);
      assert Init(more) + [Last(more)] == more;
    }
  }

  lemma {:induction false} RunNumbered(items: seq<Item>)
    requires FragsOf(items) == []
    ensures Numbered(BatchRun(items), MessageTools(items))
  {
    if items != [] {
      assert FragsOf(Init(items)) == [];
      RunNumbered(Init(items));
      var b := BatchRun(Init(items));
      var cs := MessageTools(Init(items));
      assert cs + [] == cs;
      if HasChoice(Last(items)) {
        var c := Last(items).chunk.choices[0];
        assert c.tools == [];
        if c.content == "" && c.message.Some? {
          CallsNumbered(b.(text := b.text + c.message.value.content), cs, c.message.value.tools);
        }
      }
    }
  }

  lemma {:induction false} NumberedList(b: Batch, cs: seq<ToolCall>, n: nat)
    requires Numbered(b, cs) && n <= |cs|
    ensures ListCalls(b.accs, b.order[..n]) == cs[..n]
  {
    if n > 0 {
      NumberedList(b, cs, n - 1);
      assert Init(b.order[..n]) == b.order[..n - 1];
      assert cs[..n] == cs[..n - 1] + [cs[n - 1]];
    }
  }

  /** Without tool-call deltas the calls are those of the complete messages, in order. */
  lemma MessageCallsAreRead(items: seq<Item>)
    requires FragsOf(items) == []
    ensures CallList(BatchRun(items)) == MessageTools(items)
  {
    RunNumbered(items);
    var b := BatchRun(items);
    NumberedList(b, MessageTools(items), |b.order|);
    assert b.order[..|b.order|] == b.order;
  }
}
