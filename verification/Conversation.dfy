/** Translation of an Anthropic conversation into OpenAI messages. */
module Conversation {
  import opened Prelude

  // ----- Input -----

  /** One text piece inside a tool result given as an array. */
  datatype Piece = Piece(kind: string, text: string)

  datatype ResultContent = Absent | Verbatim(text: string) | Pieces(pieces: seq<Piece>) | OtherJson(raw: string)

  datatype BlockIn = BlockIn(
    kind: string, text: string,
    id: string, name: string, input: string,
    toolUseId: string, toolContent: ResultContent)

  /** Message content: a JSON string, an array of blocks, or something else. */
  datatype Content = Plain(text: string) | Blocks(blocks: seq<BlockIn>) | Unreadable

  datatype MessageIn = MessageIn(role: string, content: Content)

  // ----- Output -----

  datatype Call = Call(id: string, name: string, arguments: string)

  datatype MessageOut = MessageOut(role: string, content: Option<string>, calls: seq<Call>, callId: Option<string>)

  function Simple(role: string, text: string): MessageOut {
    MessageOut(role, Some(text), [], None)
  }

  // ----- Specification -----

  /** `strings.Join(parts, "\n")`. */
  function JoinLines(parts: seq<string>): string
  {
    if parts == [] then ""
    else if |parts| == 1 then parts[0]
    else JoinLines(Init(parts)) + "\n" + Last(parts)
  }

  function PieceTexts(ps: seq<Piece>): seq<string>
  {
    if ps == [] then []
    else PieceTexts(Init(ps)) + (if Last(ps).kind == "text" && Last(ps).text != "" then [Last(ps).text] else [])
  }

  function ResultText(c: ResultContent): string
  {
    match c
    case Absent => ""
    case Verbatim(t) => t
    case Pieces(ps) => JoinLines(PieceTexts(ps))
    case OtherJson(raw) => raw
  }

  function Texts(bs: seq<BlockIn>): seq<string>
  {
    if bs == [] then []
    else Texts(Init(bs)) + (if Last(bs).kind == "text" && Last(bs).text != "" then [Last(bs).text] else [])
  }

  function ToolMessage(b: BlockIn): MessageOut {
    MessageOut("tool", Some(ResultText(b.toolContent)), [], Some(b.toolUseId))
  }

  function Results(bs: seq<BlockIn>): seq<MessageOut>
  {
    if bs == [] then []
    else Results(Init(bs)) + (if Last(bs).kind == "tool_result" then [ToolMessage(Last(bs))] else [])
  }

  function CallOf(b: BlockIn): Call {
    Call(b.id, b.name, if b.input == "" then "{}" else b.input)
  }

  function Calls(bs: seq<BlockIn>): seq<Call>
  {
    if bs == [] then []
    else Calls(Init(bs)) + (if Last(bs).kind == "tool_use" then [CallOf(Last(bs))] else [])
  }

  /** One message may become none, one or several. */
  function Translate1(m: MessageIn): seq<MessageOut>
  {
    match m.content
    case Plain(t) => [Simple(m.role, t)]
    case Unreadable => [Simple(m.role, "")]
    case Blocks(bs) =>
      var texts := Texts(bs);
      if m.role == "user" then
        (if texts != [] then [Simple("user", JoinLines(texts))] else []) + Results(bs)
      else if m.role == "assistant" then
        [MessageOut("assistant", if texts != [] then Some(JoinLines(texts)) else None, Calls(bs), None)]
      else [Simple(m.role, JoinLines(texts))]
  }

  function Translate(ms: seq<MessageIn>): seq<MessageOut>
  {
    if ms == [] then [] else Translate(Init(ms)) + Translate1(Last(ms))
  }

  // ----- The translation as the program runs it -----

  method UserBlocks(bs: seq<BlockIn>) returns (texts: seq<string>, results: seq<MessageOut>)
    ensures texts == Texts(bs) && results == Results(bs)
  {
    texts, results := [], [];
    for i := 0 to |bs|
      invariant texts == Texts(bs[..i]) && results == Results(bs[..i])
    {
      assert Init(bs[..i + 1]) == bs[..i];
      if bs[i].kind == "text" {
        if bs[i].text != "" {
          texts := texts + [bs[i].text];
        }
      } else if bs[i].kind == "tool_result" {
        results := results + [ToolMessage(bs[i])];
      }
    }
    assert bs[..|bs|] == bs;
  }

  method AssistantBlocks(bs: seq<BlockIn>) returns (texts: seq<string>, calls: seq<Call>)
    ensures texts == Texts(bs) && calls == Calls(bs)
  {
    texts, calls := [], [];
    for i := 0 to |bs|
      invariant texts == Texts(bs[..i]) && calls == Calls(bs[..i])
    {
      assert Init(bs[..i + 1]) == bs[..i];
      if bs[i].kind == "text" {
        if bs[i].text != "" {
          texts := texts + [bs[i].text];
        }
      } else if bs[i].kind == "tool_use" {
        var args := bs[i].input;
        if args == "" {
          args := "{}";
        }
        calls := calls + [Call(bs[i].id, bs[i].name, args)];
      }
    }
    assert bs[..|bs|] == bs;
  }

  /** The part of the loop body for content blocks. */
  method TranslateBlocks(role: string, bs: seq<BlockIn>) returns (out: seq<MessageOut>)
    ensures out == Translate1(MessageIn(role, Blocks(bs)))
  {
    if role == "user" {
      var texts, results := UserBlocks(bs);
      out := [];
      if |texts| > 0 {
        out := out + [Simple("user", JoinLines(texts))];
      }
      out := out + results;
    } else if role == "assistant" {
      var texts, calls := AssistantBlocks(bs);
      var content := if |texts| > 0 then Some(JoinLines(texts)) else None;
      out := [MessageOut("assistant", content, calls, None)];
    } else {
      out := [Simple(role, JoinLines(Texts(bs)))];
    }
  }

  method TranslateMessages(ms: seq<MessageIn>) returns (out: seq<MessageOut>)
    ensures out == Translate(ms)
  {
    out := [];
    for i := 0 to |ms|
      invariant out == Translate(ms[..i])
    {
      var m := ms[i];
      assert Init(ms[..i + 1]) == ms[..i];
      match m.content {
        case Plain(t) =>
          out := out + [Simple(m.role, t)];
        case Unreadable =>
          out := out + [Simple(m.role, "")];
        case Blocks(bs) =>
          var more := TranslateBlocks(m.role, bs);
          out := out + more;
      }
    }
    assert ms[..|ms|] == ms;
  }

  // ----- Tool structure -----

  /** Ids of the tool uses an assistant announces, in order. */
  function UseIds1(m: MessageIn): seq<string>
  {
    if m.role == "assistant" && m.content.Blocks? then BlockIds(m.content.blocks, "tool_use") else []
  }

  /** Ids the results of a user message answer, in order. */
  function AnswerIds1(m: MessageIn): seq<string>
  {
    if m.role == "user" && m.content.Blocks? then BlockIds(m.content.blocks, "tool_result") else []
  }

  function BlockIds(bs: seq<BlockIn>, kind: string): seq<string>
  {
    if bs == [] then []
    else
      BlockIds(Init(bs), kind) +
      (if Last(bs).kind == kind then [if kind == "tool_use" then Last(bs).id else Last(bs).toolUseId] else [])
  }

  function UseIds(ms: seq<MessageIn>): seq<string>
  {
    if ms == [] then [] else UseIds(Init(ms)) + UseIds1(Last(ms))
  }

  function AnswerIds(ms: seq<MessageIn>): seq<string>
  {
    if ms == [] then [] else AnswerIds(Init(ms)) + AnswerIds1(Last(ms))
  }

  function IdsOf(cs: seq<Call>): seq<string>
  {
    if cs == [] then [] else IdsOf(Init(cs)) + [Last(cs).id]
  }

  /** Ids of all tool_calls of the translated conversation, in order. */
  function CallIds(out: seq<MessageOut>): seq<string>
  {
    if out == [] then [] else CallIds(Init(out)) + IdsOf(Last(out).calls)
  }

  /** Ids of all role:tool messages, in order. */
  function ResultIds(out: seq<MessageOut>): seq<string>
  {
    if out == [] then []
    else ResultIds(Init(out)) + (if Last(out).callId.Some? then [Last(out).callId.value] else [])
  }

  lemma {:induction false} IdsConcat(a: seq<MessageOut>, b: seq<MessageOut>)
    ensures CallIds(a + b) == CallIds(a) + CallIds(b)
    ensures ResultIds(a + b) == ResultIds(a) + ResultIds(b)
  {
    if b == [] {
      assert a + b == a;
    } else {
      IdsConcat(a, Init(b));
      InitOfConcat(a, b);
      Associative(CallIds(a), CallIds(Init(b)), IdsOf(Last(b).calls));
      Associative(ResultIds(a), ResultIds(Init(b)), if Last(b).callId.Some? then [Last(b).callId.value] else []);
    }
  }

  lemma {:induction false} CallsKeepIds(bs: seq<BlockIn>)
    ensures IdsOf(Calls(bs)) == BlockIds(bs, "tool_use")
  {
    if bs != [] {
      CallsKeepIds(Init(bs));
      if Last(bs).kind == "tool_use" {
        assert Init(Calls(bs)) == Calls(Init(bs));
      } else {
        assert Calls(bs) == Calls(Init(bs));
      }
    }
  }

  lemma {:induction false} ResultsKeepIds(bs: seq<BlockIn>)
    ensures ResultIds(Results(bs)) == BlockIds(bs, "tool_result")
    ensures CallIds(Results(bs)) == []
  {
    if bs != [] {
      ResultsKeepIds(Init(bs));
      if Last(bs).kind == "tool_result" {
        assert Init(Results(bs)) == Results(Init(bs));
        assert CallIds(Results(bs)) == CallIds(Results(Init(bs))) + IdsOf([]);
      } else {
        assert Results(bs) == Results(Init(bs));
      }
    }
  }

  lemma SingleIds(m: MessageOut)
    ensures CallIds([m]) == IdsOf(m.calls)
    ensures ResultIds([m]) == if m.callId.Some? then [m.callId.value] else []
  {
    assert Init([m]) == [];
  }

  lemma UserKeepsIds(bs: seq<BlockIn>)
    ensures var out := Translate1(MessageIn("user", Blocks(bs)));
            CallIds(out) == [] && ResultIds(out) == BlockIds(bs, "tool_result")
  {
    ResultsKeepIds(bs);
    var head := if Texts(bs) != [] then [Simple("user", JoinLines(Texts(bs)))] else [];
    IdsConcat(head, Results(bs));
    if head != [] {
      SingleIds(head[0]);
    }
  }

  lemma Translate1KeepsIds(m: MessageIn)
    ensures CallIds(Translate1(m)) == UseIds1(m)
    ensures ResultIds(Translate1(m)) == AnswerIds1(m)
    ensures CallIds(Translate1(m)) == [] || ResultIds(Translate1(m)) == []
  {
    if m.content.Blocks? && m.role == "user" {
      UserKeepsIds(m.content.blocks);
    } else {
      if m.content.Blocks? {
        CallsKeepIds(m.content.blocks);
      }
      SingleIds(Translate1(m)[0]);
    }
  }

  /** Translation works message by message, in order. */
  lemma {:induction false} TranslateConcat(a: seq<MessageIn>, b: seq<MessageIn>)
    ensures Translate(a + b) == Translate(a) + Translate(b)
  {
    if b == [] {
      assert a + b == a;
    } else {
      TranslateConcat(a, Init(b));
      assert Init(a + b) == a + Init(b) && Last(a + b) == Last(b);
      Associative(Translate(a), Translate(Init(b)), Translate1(Last(b)));
    }
  }

  /** The ids of tool calls and of tool results survive, in order. */
  lemma {:induction false} IdsSurvive(ms: seq<MessageIn>)
    ensures CallIds(Translate(ms)) == UseIds(ms)
    ensures ResultIds(Translate(ms)) == AnswerIds(ms)
  {
    if ms != [] {
      IdsSurvive(Init(ms));
      Translate1KeepsIds(Last(ms));
      IdsConcat(Translate(Init(ms)), Translate1(Last(ms)));
    }
  }

  /** Every tool result refers to a tool use of an earlier message. */
  ghost predicate Grounded(ms: seq<MessageIn>)
  {
    ms == [] || (Grounded(Init(ms)) && forall id :: id in AnswerIds1(Last(ms)) ==> id in UseIds(Init(ms)))
  }

  /** Every role:tool message refers to a tool call of an earlier message. */
  ghost predicate GroundedOut(out: seq<MessageOut>)
  {
    out == [] || (GroundedOut(Init(out)) && (Last(out).callId.Some? ==> Last(out).callId.value in CallIds(Init(out))))
  }

  /** Appending messages that hold only calls or only results. */
  lemma {:induction false} GroundedConcat(a: seq<MessageOut>, b: seq<MessageOut>)
    requires CallIds(b) == [] || ResultIds(b) == []
    ensures GroundedOut(a + b) <==> GroundedOut(a) && forall id :: id in ResultIds(b) ==> id in CallIds(a)
  {
    if b == [] {
      assert a + b == a;
    } else {
      assert Init(a + b) == a + Init(b);
      assert b == Init(b) + [Last(b)];
      GroundedConcat(a, Init(b));
      IdsConcat(a, Init(b));
    }
  }

  /** A conversation is grounded before the translation if and only if it is grounded after it. */
  lemma {:induction false} TranslationKeepsGrounding(ms: seq<MessageIn>)
    ensures GroundedOut(Translate(ms)) <==> Grounded(ms)
  {
    if ms != [] {
      TranslationKeepsGrounding(Init(ms));
      IdsSurvive(Init(ms));
      Translate1KeepsIds(Last(ms));
      GroundedConcat(Translate(Init(ms)), Translate1(Last(ms)));
    }
  }

  // ----- Contents -----

  /** Lines joined by newlines. */
  function Joined(parts: seq<string>): string
  {
    if parts == [] then "" else if |parts| == 1 then parts[0] else parts[0] + "\n" + Joined(parts[1..])
  }

  /** The blocks of a kind, in order. */
  function OfKind(bs: seq<BlockIn>, kind: string): seq<BlockIn>
  {
    if bs == [] then [] else (if bs[0].kind == kind then [bs[0]] else []) + OfKind(bs[1..], kind)
  }

  /** The texts that are not empty, in order. */
  function Spoken(bs: seq<BlockIn>): seq<string>
  {
    if bs == [] then [] else (if bs[0].kind == "text" && bs[0].text != "" then [bs[0].text] else []) + Spoken(bs[1..])
  }

  function SpokenPieces(ps: seq<Piece>): seq<string>
  {
    if ps == [] then []
    else (if ps[0].kind == "text" && ps[0].text != "" then [ps[0].text] else []) + SpokenPieces(ps[1..])
  }

  lemma {:induction false} JoinedSnoc(parts: seq<string>, p: string)
    requires parts != []
    ensures Joined(parts + [p]) == Joined(parts) + "\n" + p
  {
    if |parts| == 1 {
      assert (parts + [p])[1..] == [p];
    } else {
      assert (parts + [p])[1..] == parts[1..] + [p];
      JoinedSnoc(parts[1..], p);
      var a, b := parts[0] + "\n", Joined(parts[1..]);
      Associative(a, b, "\n" + p);
      assert b + ("\n" + p) == b + "\n" + p;
    }
  }

  lemma {:induction false} JoinIs(parts: seq<string>)
    ensures JoinLines(parts) == Joined(parts)
  {
    if |parts| > 1 {
      JoinIs(Init(parts));
      JoinedSnoc(Init(parts), Last(parts));
      assert Init(parts) + [Last(parts)] == parts;
    }
  }

  lemma {:induction false} KindsSnoc(bs: seq<BlockIn>, b: BlockIn, kind: string)
    ensures OfKind(bs + [b], kind) == OfKind(bs, kind) + (if b.kind == kind then [b] else [])
    ensures Spoken(bs + [b]) == Spoken(bs) + (if b.kind == "text" && b.text != "" then [b.text] else [])
  {
    if bs == [] {
      assert [b][1..] == [] && bs + [b] == [b];
    } else {
      assert (bs + [b])[1..] == bs[1..] + [b] && (bs + [b])[0] == bs[0];
      KindsSnoc(bs[1..], b, kind);
      Associative(if bs[0].kind == kind then [bs[0]] else [], OfKind(bs[1..], kind), if b.kind == kind then [b] else []);
      Associative(if bs[0].kind == "text" && bs[0].text != "" then [bs[0].text] else [], Spoken(bs[1..]),
                  if b.kind == "text" && b.text != "" then [b.text] else []);
    }
  }

  lemma {:induction false} PiecesSnoc(ps: seq<Piece>, p: Piece)
    ensures SpokenPieces(ps + [p]) == SpokenPieces(ps) + (if p.kind == "text" && p.text != "" then [p.text] else [])
  {
    if ps == [] {
      assert [p][1..] == [] && ps + [p] == [p];
    } else {
      assert (ps + [p])[1..] == ps[1..] + [p] && (ps + [p])[0] == ps[0];
      PiecesSnoc(ps[1..], p);
      Associative(if ps[0].kind == "text" && ps[0].text != "" then [ps[0].text] else [], SpokenPieces(ps[1..]),
                  if p.kind == "text" && p.text != "" then [p.text] else []);
    }
  }

  lemma {:induction false} PieceTextsAre(ps: seq<Piece>)
    ensures PieceTexts(ps) == SpokenPieces(ps)
  {
    if ps != [] {
      PieceTextsAre(Init(ps));
      PiecesSnoc(Init(ps), Last(ps));
      assert Init(ps) + [Last(ps)] == ps;
    }
  }

  /** The text of a tool result: nothing, the string, the pieces that say something, or the raw JSON. */
  lemma ResultTextMeans(c: ResultContent)
    ensures c.Absent? ==> ResultText(c) == ""
    ensures c.Verbatim? ==> ResultText(c) == c.text
    ensures c.Pieces? ==> ResultText(c) == Joined(SpokenPieces(c.pieces))
    ensures c.OtherJson? ==> ResultText(c) == c.raw
  {
    if c.Pieces? {
      PieceTextsAre(c.pieces);
      JoinIs(PieceTexts(c.pieces));
    }
  }

  lemma {:induction false} BlocksAre(bs: seq<BlockIn>)
    ensures Texts(bs) == Spoken(bs)
    ensures |Results(bs)| == |OfKind(bs, "tool_result")| && |Calls(bs)| == |OfKind(bs, "tool_use")|
    ensures forall k :: 0 <= k < |Results(bs)| ==> Results(bs)[k] == ToolMessage(OfKind(bs, "tool_result")[k])
    ensures forall k :: 0 <= k < |Calls(bs)| ==> Calls(bs)[k] == CallOf(OfKind(bs, "tool_use")[k])
  {
    if bs != [] {
      BlocksAre(Init(bs));
      KindsSnoc(Init(bs), Last(bs), "tool_result");
      KindsSnoc(Init(bs), Last(bs), "tool_use");
      assert Init(bs) + [Last(bs)] == bs;
    }
  }

  /** A user message of blocks becomes its texts, joined, as one message unless there are none, followed by one
      tool message for each result, with its text and the id it answers. */
  lemma UserMeans(bs: seq<BlockIn>)
    ensures var out := Translate1(MessageIn("user", Blocks(bs))); var rs := OfKind(bs, "tool_result");
            var n := if Spoken(bs) == [] then 0 else 1;
            && |out| == n + |rs|
            && (n == 1 ==> out[0] == MessageOut("user", Some(Joined(Spoken(bs))), [], None))
            && (forall k :: 0 <= k < |rs| ==>
                  out[n + k] == MessageOut("tool", Some(ResultText(rs[k].toolContent)), [], Some(rs[k].toolUseId)))
  {
    BlocksAre(bs);
    JoinIs(Texts(bs));
  }

  /** An assistant message of blocks becomes one message: its texts, joined, or no content, and one call for
      each use, with `{}` for missing arguments. */
  lemma AssistantMeans(bs: seq<BlockIn>)
    ensures var out := Translate1(MessageIn("assistant", Blocks(bs))); var us := OfKind(bs, "tool_use");
            && |out| == 1 && out[0].role == "assistant" && out[0].callId == None
            && out[0].content == (if Spoken(bs) == [] then None else Some(Joined(Spoken(bs))))
            && |out[0].calls| == |us|
            && (forall k :: 0 <= k < |us| ==>
                  out[0].calls[k] == Call(us[k].id, us[k].name, if us[k].input == "" then "{}" else us[k].input))
  {
    BlocksAre(bs);
    JoinIs(Texts(bs));
  }

  /** Any other message keeps its role, and its text as it can be read. */
  lemma OthersMean(m: MessageIn)
    requires !m.content.Blocks? || (m.role != "user" && m.role != "assistant")
    ensures Translate1(m) ==
            [MessageOut(m.role, Some(if m.content.Plain? then m.content.text
                                     else if m.content.Blocks? then Joined(Spoken(m.content.blocks)) else ""), [], None)]
  {
    if m.content.Blocks? {
      BlocksAre(m.content.blocks);
      JoinIs(Texts(m.content.blocks));
    }
  }

  /** The translation of a conversation, message by message. */
  lemma {:induction false} MessagesInOrder(ms: seq<MessageIn>, i: nat)
    requires i < |ms|
    ensures Translate(ms) == Translate(ms[..i]) + Translate1(ms[i]) + Translate(ms[i + 1..])
  {
    assert ms == ms[..i] + ([ms[i]] + ms[i + 1..]);
    TranslateConcat(ms[..i], [ms[i]] + ms[i + 1..]);
    TranslateConcat([ms[i]], ms[i + 1..]);
    assert Init([ms[i]]) == [] && [] + Translate1(ms[i]) == Translate1(ms[i]);
    assert Translate([ms[i]]) == Translate([]) + Translate1(ms[i]) == Translate1(ms[i]);
    Associative(Translate(ms[..i]), Translate1(ms[i]), Translate(ms[i + 1..]));
  }
}
