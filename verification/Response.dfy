/** From bytes to messages: the streaming path over any fragmentation against the batch path. */
module Response {
  import opened Prelude
  import opened Sse
  import opened Stream
  import opened Reassembly
  import opened Agreement

  lemma {:induction false} ScannedLines(lines: seq<Bytes>)
    requires |lines| >= 1 && forall i :: 0 <= i < |lines| ==> |lines[i]| < MAX_TOKEN
    ensures Scanned(lines) == if Last(lines) == [] then Init(lines) else lines
  {
    if |lines| > 1 {
      ScannedLines(lines[1..]);
      assert Last(lines[1..]) == Last(lines);
      assert lines == [lines[0]] + lines[1..];
      assert Init(lines) == [lines[0]] + Init(lines[1..]);
    } else {
      assert lines == [lines[0]];
    }
  }

  /** Without a doubled prefix both paths read the same item from a line. */
  lemma SameItem(decode: Decoder, line: Bytes)
    requires !(DATA_SPACE + DATA <= line)
    ensures BatchLineItem(decode, line) == LineItem(decode, line)
  {
    PayloadAgreement(line);
  }

  lemma BatchReadsItems(decode: Decoder, lines: seq<Bytes>)
    requires |lines| >= 1
    requires forall i :: 0 <= i < |lines| ==> |lines[i]| < MAX_TOKEN && !(DATA_SPACE + DATA <= lines[i])
    ensures BatchRun(BatchItemsOf(decode, Scanned(lines))) == BatchRun(ItemsOf(decode, lines))
  {
    ScannedLines(lines);
    forall i | 0 <= i < |lines|
      ensures BatchItemsOf(decode, lines)[i] == ItemsOf(decode, lines)[i]
    {
      SameItem(decode, lines[i]);
    }
    assert BatchItemsOf(decode, lines) == ItemsOf(decode, lines);
    if Last(lines) == [] {
      var items := ItemsOf(decode, lines);
      assert BatchItemsOf(decode, Init(lines)) == Init(items);
      assert Last(items) == LineItem(decode, []);
    }
  }

  /** What the upstream body must satisfy: it is an SSE body, each line fits the scanner and has a plain
      prefix, and its chunks are deltas with nothing but usage behind the terminator. */
  ghost predicate Comparable(decode: Decoder, decodeBody: BodyDecoder, body: Bytes)
  {
    var lines := Split(body);
    && !JsonBody(decodeBody, body)
    && (forall i :: 0 <= i < |lines| ==> |lines[i]| < MAX_TOKEN && !(DATA_SPACE + DATA <= lines[i]))
    && QuietAfterDone(ItemsOf(decode, lines))
    && DeltaOnly(ItemsOf(decode, lines))
  }

  /** The message streamed to the client, over any fragmentation of the body, and the non-streaming
      answer from the same body: same text always, same ordered tool calls exactly when all are clean,
      same stop reason exactly when the finish reasons agree. */
  lemma StreamingMatchesBatch(decode: Decoder, decodeBody: BodyDecoder, ps: seq<Bytes>)
    requires Comparable(decode, decodeBody, Concat(ps))
    ensures var out := Tail(decode, WriteAll(decode, FRESH, ps)).out;
            var r := ExtractSpec(decode, decodeBody, Concat(ps));
            var items := ItemsOf(decode, Split(Concat(ps)));
            out != [] ==>
              && TextOf(out) == r.text
              && (CallsOf(out) == r.calls <==> CleanCalls(items))
              && (StopReasonOf(out) == Some(AnswerStopReason(r)) <==> FinishAgrees(items))
  {
    var lines := Split(Concat(ps));
    StreamedBody(decode, ps);
    BatchReadsItems(decode, lines);
    StreamAgreesWithBatch(ItemsOf(decode, lines));
  }

  /** The id of a tool call is the first one in the stream and the last one in the batch form. */
  lemma ChangedIdDiffers(f: Fragment, g: Fragment)
    requires f.name != "" && f.id != "" && g.id != "" && g.id != f.id
    ensures StreamCall([f, g]).Some? && StreamCall([f, g]).value.id == f.id && FullCall([f, g]).id == g.id
  {
    assert [f, g] == [f] + [g] && [f] == [] + [f];
    SnocFacts([], f);
    SnocFacts([f], g);
    StreamCallSnoc([], f);
    StreamCallSnoc([f], g);
  }

  /** Arguments that arrive before the name are lost in the stream only. */
  lemma EarlyArgumentsAreLost(f: Fragment, g: Fragment)
    requires f.name == "" && f.args != "" && g.name != ""
    ensures StreamCall([f, g]).Some? && StreamCall([f, g]).value.args == g.args
    ensures FullCall([f, g]).args == f.args + g.args != g.args
  {
    assert [f, g] == [f] + [g] && [f] == [] + [f];
    SnocFacts([], f);
    SnocFacts([f], g);
    StreamCallSnoc([], f);
    StreamCallSnoc([f], g);
    assert "" + f.args == f.args;
    assert |f.args + g.args| > |g.args|;
  }

  lemma OnlyTool(f: Fragment)
    ensures var items := [ToolItem(f)]; FragsOf(items) == [f] && KeptFinish(items) == "" && LastFinish(items) == ""
  {
    var items := [ToolItem(f)];
    assert Init(items) == [] && Last(items) == ToolItem(f);
    assert FinishIn(Last(items)).None?;
    assert FragsOf(items) == FragsOf([]) + [f] == [f];
  }

  /** A tool call without any finish reason: the stream says the turn ended, the answer that a tool is used. */
  lemma MissingFinishDiffers(f: Fragment)
    ensures var items := [ToolItem(f), Done]; var b := BatchRun(items);
            && QuietAfterDone(items) && DeltaOnly(items)
            && StopReasonOf(Finish(Run(items)).out) == Some("end_turn")
            && AnswerStopReason(Extract(b.text, b.finish, CallList(b))) == "tool_use"
  {
    var items := [ToolItem(f), Done];
    assert Init(items) == [ToolItem(f)] && Init([ToolItem(f)]) == [];
    assert items[1].Done?;
    RunFollows(items);
    OnlyTool(f);
    assert !HasChoice(Last(items)) && FinishIn(Last(items)).None?;
    assert FragsOf(items) == FragsOf([ToolItem(f)]) + [];
    BatchStopReason(items);
  }
}
