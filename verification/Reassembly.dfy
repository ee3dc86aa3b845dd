/** Reading a response back: from the emitted Anthropic events, and from the captured OpenAI body
    with the program's batch reassembler. */
module Reassembly {
  import opened Prelude
  import opened Sse
  import opened Stream

  // ----- A client's reading of the events -----

  function TextOf(evs: seq<Event>): string
  {
    if evs == [] then ""
    else TextOf(Init(evs)) + (if Last(evs).TextDelta? then Last(evs).text else "")
  }

  /** The tool call of content block `i`, if one was started. */
  function CallAt(evs: seq<Event>, i: nat): Option<ToolCall>
  {
    if evs == [] then None
    else
      var before := CallAt(Init(evs), i);
      match Last(evs)
      case BlockStart(j, ToolUse(id, name)) =>
        if i == j && before.None? then Some(ToolCall(id, name, "")) else before
      case ArgsDelta(j, json) =>
        if i == j && before.Some? then Some(before.value.(args := before.value.args + json)) else before
      case _ => before
  }

  function MaxIndex(evs: seq<Event>): nat
  {
    if evs == [] then 0
    else
      var m := MaxIndex(Init(evs));
      if Last(evs).BlockStart? && Last(evs).index > m then Last(evs).index else m
  }

  function CallsUpTo(evs: seq<Event>, n: nat): seq<ToolCall>
  {
    if n == 0 then []
    else
      var c := CallAt(evs, n);
      CallsUpTo(evs, n - 1) + (if c.Some? then [c.value] else [])
  }

  /** The tool calls of the message in content block order. */
  function CallsOf(evs: seq<Event>): seq<ToolCall> {
    CallsUpTo(evs, MaxIndex(evs))
  }

  function StopReasonOf(evs: seq<Event>): Option<string>
  {
    if evs == [] then None
    else if Last(evs).MessageDelta? then Some(Last(evs).stopReason)
    else StopReasonOf(Init(evs))
  }

  // ----- The batch reassembler -----

  datatype Batch = Batch(text: string, finish: string, accs: map<int, ToolCall>, order: seq<int>)

  const BLANK: Batch := Batch("", "", map[], [])

  function BatchFragment(b: Batch, f: Fragment): Batch
  {
    var known := f.index in b.accs;
    var acc := if known then b.accs[f.index] else ToolCall("", "", "");
    var acc' := ToolCall(if f.id != "" then f.id else acc.id, if f.name != "" then f.name else acc.name, acc.args + f.args);
    b.(accs := b.accs[f.index := acc'], order := if known then b.order else b.order + [f.index])
  }

  function BatchFragments(b: Batch, fs: seq<Fragment>): Batch
  {
    if fs == [] then b else BatchFragment(BatchFragments(b, Init(fs)), Last(fs))
  }

  /** A tool call of a complete message is stored under the current number of recorded calls. */
  function BatchCall(b: Batch, c: ToolCall): Batch {
    b.(accs := b.accs[|b.order| := c], order := b.order + [|b.order|])
  }

  function BatchCalls(b: Batch, cs: seq<ToolCall>): Batch
  {
    if cs == [] then b else BatchCall(BatchCalls(b, Init(cs)), Last(cs))
  }

  function BatchContent(b: Batch, c: Choice): Batch
  {
    if c.content != "" then b.(text := b.text + c.content)
    else if c.message.Some? then BatchCalls(b.(text := b.text + c.message.value.content), c.message.value.tools)
    else b
  }

  function BatchChoice(b: Batch, c: Choice): Batch
  {
    var b2 := BatchFragments(BatchContent(b, c), c.tools);
    if c.finish.Some? then b2.(finish := c.finish.value) else b2
  }

  function BatchItem(b: Batch, item: Item): Batch
  {
    if item.Data? && item.chunk.choices != [] then BatchChoice(b, item.chunk.choices[0]) else b
  }

  function BatchRun(items: seq<Item>): Batch
  {
    if items == [] then BLANK else BatchItem(BatchRun(Init(items)), Last(items))
  }

  function CallList(b: Batch): seq<ToolCall>
  {
    ListCalls(b.accs, b.order)
  }

  function ListCalls(accs: map<int, ToolCall>, order: seq<int>): seq<ToolCall>
  {
    if order == [] then []
    else ListCalls(accs, Init(order)) + (if Last(order) in accs then [accs[Last(order)]] else [])
  }

  // ----- From bytes -----

  /** The longest line the scanner's 4 MiB buffer can hold, plus one. */
  const MAX_TOKEN: nat := 4194304

  /** The lines the scanner yields: it stops at the first line that does not fit its buffer,
      and an empty last line is no line. */
  function Scanned(lines: seq<Bytes>): seq<Bytes>
  {
    if lines == [] || |lines[0]| >= MAX_TOKEN || lines == [[]] then []
    else [lines[0]] + Scanned(lines[1..])
  }

  function BatchLineItem(decode: Decoder, line: Bytes): Item {
    ItemOf(decode, BatchPayload(DropCR(line)))
  }

  function BatchItemsOf(decode: Decoder, lines: seq<Bytes>): (items: seq<Item>)
    ensures |items| == |lines|
  {
    seq(|lines|, i requires 0 <= i < |lines| => BatchLineItem(decode, lines[i]))
  }

  datatype Extract = Extract(text: string, finish: string, calls: seq<ToolCall>)

  /** Decodes a complete JSON response that has a choice. */
  type BodyDecoder = Bytes -> Option<Extract>

  predicate JsonBody(decodeBody: BodyDecoder, body: Bytes)
  {
    var trimmed := TrimSpace(body);
    trimmed != [] && trimmed[0] == 123 && decodeBody(trimmed).Some?
  }

  /** The reassembly of the `data:` lines. */
  function FromLines(decode: Decoder, body: Bytes): Extract
  {
    var b := BatchRun(BatchItemsOf(decode, Scanned(Split(body))));
    Extract(b.text, b.finish, CallList(b))
  }

  function ExtractSpec(decode: Decoder, decodeBody: BodyDecoder, body: Bytes): Extract
  {
    if JsonBody(decodeBody, body) then decodeBody(TrimSpace(body)).value else FromLines(decode, body)
  }

  /** The stop reason of the non-streaming answer: tool calls without a finish reason count as `tool_calls`. */
  function AnswerStopReason(r: Extract): string {
    MapStopReason(if r.calls != [] && r.finish == "" then "tool_calls" else r.finish)
  }

  // ----- The reassembler as the program runs it -----

  lemma BatchFragmentsSnoc(b: Batch, fs: seq<Fragment>, i: nat)
    requires i < |fs|
    ensures BatchFragments(b, fs[..i + 1]) == BatchFragment(BatchFragments(b, fs[..i]), fs[i])
  {
    assert Init(fs[..i + 1]) == fs[..i];
  }

  method AddFragments(b: Batch, fs: seq<Fragment>) returns (r: Batch)
    ensures r == BatchFragments(b, fs)
  {
    var accs, order := b.accs, b.order;
    for i := 0 to |fs|
      invariant b.(accs := accs, order := order) == BatchFragments(b, fs[..i])
    {
      BatchFragmentsSnoc(b, fs, i);
      var tc := fs[i];
      var acc := ToolCall("", "", "");
      if tc.index in accs {
        acc := accs[tc.index];
      } else {
        order := order + [tc.index];
      }
      if tc.id != "" {
        acc := acc.(id := tc.id);
      }
      if tc.name != "" {
        acc := acc.(name := tc.name);
      }
      if tc.args != "" {
        acc := acc.(args := acc.args + tc.args);
      }
      assert tc.args == "" ==> acc.args + tc.args == acc.args;
      accs := accs[tc.index := acc];
    }
    assert fs[..|fs|] == fs;
    r := b.(accs := accs, order := order);
  }

  method AddCalls(b: Batch, cs: seq<ToolCall>) returns (r: Batch)
    ensures r == BatchCalls(b, cs)
  {
    r := b;
    for i := 0 to |cs|
      invariant r == BatchCalls(b, cs[..i])
    {
      assert Init(cs[..i + 1]) == cs[..i];
      var idx := |r.order|;
      r := r.(accs := r.accs[idx := cs[i]], order := r.order + [idx]);
    }
    assert cs[..|cs|] == cs;
  }

  method ExtractFromCapturedBody(decode: Decoder, decodeBody: BodyDecoder, body: Bytes) returns (r: Extract)
    ensures body != [] ==> r == ExtractSpec(decode, decodeBody, body)
    ensures body == [] ==> r == Extract("", "", [])
    ensures forall core :: IsCore(body, core) && core != [] && core[0] == 123 && decodeBody(core).Some? ==>
              r == decodeBody(core).value
    ensures body != [] && (forall core :: IsCore(body, core) ==> core == [] || core[0] != 123 || decodeBody(core).None?) ==>
              r == FromLines(decode, body)
  {
    TrimmedIsCore(body);
    forall core | IsCore(body, core)
      ensures core == TrimSpace(body)
    {
      CoreIsTrimmed(body, core);
    }
    if |body| == 0 {
      return Extract("", "", []);
    }
    var trimmed := TrimSpace(body);
    if |trimmed| > 0 && trimmed[0] == 123 {
      var whole := decodeBody(trimmed);
      if whole.Some? {
        return whole.value;
      }
    }
    var lines := Scanned(Split(body));
    ghost var items := BatchItemsOf(decode, lines);
    var b := BLANK;
    for i := 0 to |lines|
      invariant b == BatchRun(items[..i])
    {
      assert Init(items[..i + 1]) == items[..i];
      var payload := BatchPayload(DropCR(lines[i]));
      if payload.Some? && payload.value != [] && payload.value != DONE {
        var oc := decode(payload.value);
        if oc.Some? && |oc.value.choices| != 0 {
          b := AddChoice(b, oc.value.choices[0]);
        }
      }
    }
    assert items[..|lines|] == items;
    var calls := [];
    for i := 0 to |b.order|
      invariant calls == ListCalls(b.accs, b.order[..i])
    {
      assert Init(b.order[..i + 1]) == b.order[..i];
      if b.order[i] in b.accs {
        calls := calls + [b.accs[b.order[i]]];
      }
    }
    assert b.order[..|b.order|] == b.order;
    r := Extract(b.text, b.finish, calls);
  }

  method AddChoice(b: Batch, c: Choice) returns (r: Batch)
    ensures r == BatchChoice(b, c)
  {
    r := b;
    if c.content != "" {
      r := r.(text := r.text + c.content);
    } else if c.message.Some? {
      r := r.(text := r.text + c.message.value.content);
      r := AddCalls(r, c.message.value.tools);
    }
    r := AddFragments(r, c.tools);
    if c.finish.Some? {
      r := r.(finish := c.finish.value);
    }
  }
}
