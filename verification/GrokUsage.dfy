/** The usage and content accumulator of the Grok stream proxy, fed with arbitrary reads. */
module GrokUsage {
  import opened Prelude
  import opened Sse

  /** The parts of a chunk the accumulator looks at. */
  datatype Chunk = Chunk(content: Option<string>, promptTokens: Option<int>, completionTokens: Option<int>)

  type Decoder = Bytes -> Option<Chunk>

  datatype Totals = Totals(content: string, tokensIn: int, tokensOut: int)

  const ZERO: Totals := Totals("", 0, 0)

  function AddChunk(t: Totals, c: Chunk): Totals
  {
    Totals(if c.content.Some? then t.content + c.content.value else t.content,
           if c.promptTokens.Some? then c.promptTokens.value else t.tokensIn,
           if c.completionTokens.Some? then c.completionTokens.value else t.tokensOut)
  }

  function AddLine(decode: Decoder, t: Totals, line: Bytes): Totals
  {
    var trimmed := TrimSpace(line);
    if !(DATA_SPACE <= trimmed) then t
    else
      var data := trimmed[|DATA_SPACE|..];
      if data == DONE || data == [] then t
      else
        match decode(data)
        case None => t
        case Some(c) => AddChunk(t, c)
  }

  function LineStep(decode: Decoder): (Totals, Bytes) -> Totals
  {
    (t: Totals, line: Bytes) => AddLine(decode, t, line)
  }

  class Accumulator {
    const decode: Decoder
    var lineCarry: Bytes
    var content: string
    var tokensIn: int
    var tokensOut: int

    ghost function View(): Feed<Totals>
      reads this
    {
      Feed(lineCarry, Totals(content, tokensIn, tokensOut))
    }

    constructor (decode: Decoder)
      ensures View() == Feed([], ZERO) && this.decode == decode
    {
      this.decode := decode;
      lineCarry, content, tokensIn, tokensOut := [], "", 0, 0;
    }

    method AddData(data: Bytes)
      modifies this`content, this`tokensIn, this`tokensOut
      ensures View().st == if data == DONE || data == [] || decode(data).None? then old(View().st)
                           else AddChunk(old(View().st), decode(data).value)
    {
      if data != DONE && data != [] {
        var c := decode(data);
        if c.Some? {
          if c.value.content.Some? {
            content := content + c.value.content.value;
          }
          if c.value.promptTokens.Some? {
            tokensIn := c.value.promptTokens.value;
          }
          if c.value.completionTokens.Some? {
            tokensOut := c.value.completionTokens.value;
          }
        }
      }
    }

    /** One read of the upstream body. */
    method Read(p: Bytes)
      modifies this
      ensures View() == Push(LineStep(decode), old(View()), p)
    {
      var parts := Split(lineCarry + p);
      lineCarry := parts[|parts| - 1];
      ghost var f := LineStep(decode);
      ghost var t0 := View().st;
      var n := |parts| - 1;
      var i := 0;
      while i < n
        invariant 0 <= i <= n && lineCarry == parts[n]
        invariant View().st == FoldLines(f, t0, parts[..i])
      {
        FoldLinesSnoc(f, t0, parts[..i], parts[i]);
        assert parts[..i + 1] == parts[..i] + [parts[i]];
        var line := TrimSpace(parts[i]);
        if DATA_SPACE <= line {
          AddData(line[|DATA_SPACE|..]);
        }
        i := i + 1;
      }
    }
  }

  /** The recorded content and token counts do not depend on how the body was read. */
  lemma ReadsDoNotMatter(decode: Decoder, ps: seq<Bytes>, qs: seq<Bytes>)
    requires Concat(ps) == Concat(qs)
    ensures PushAll(LineStep(decode), Feed([], ZERO), ps) == PushAll(LineStep(decode), Feed([], ZERO), qs)
  {
    FragmentationIndependent(LineStep(decode), Feed([], ZERO), ps);
    FragmentationIndependent(LineStep(decode), Feed([], ZERO), qs);
  }

  // ----- The totals, read off the lines -----

  /** The chunk of a line: what follows `data: ` once white space around the line is cut, unless that is
      nothing or `[DONE]` or does not decode. */
  function ChunkIn(decode: Decoder, line: Bytes): Option<Chunk>
  {
    var core := TrimSpace(line);
    if [100, 97, 116, 97, 58, 32] <= core && core[6..] != [] && core[6..] != [91, 68, 79, 78, 69, 93]
    then decode(core[6..]) else None
  }

  function ContentIn(decode: Decoder, lines: seq<Bytes>): string
  {
    if lines == [] then ""
    else
      var c := ChunkIn(decode, Last(lines));
      ContentIn(decode, Init(lines)) + (if c.Some? && c.value.content.Some? then c.value.content.value else "")
  }

  function LastPrompt(decode: Decoder, lines: seq<Bytes>): int
  {
    if lines == [] then 0
    else
      var c := ChunkIn(decode, Last(lines));
      if c.Some? && c.value.promptTokens.Some? then c.value.promptTokens.value else LastPrompt(decode, Init(lines))
  }

  function LastCompletion(decode: Decoder, lines: seq<Bytes>): int
  {
    if lines == [] then 0
    else
      var c := ChunkIn(decode, Last(lines));
      if c.Some? && c.value.completionTokens.Some? then c.value.completionTokens.value else LastCompletion(decode, Init(lines))
  }

  lemma {:induction false} FoldMeans(decode: Decoder, lines: seq<Bytes>)
    ensures FoldLines(LineStep(decode), ZERO, lines) ==
            Totals(ContentIn(decode, lines), LastPrompt(decode, lines), LastCompletion(decode, lines))
  {
    if lines != [] {
      FoldMeans(decode, Init(lines));
      assert lines == Init(lines) + [Last(lines)];
      FoldLinesSnoc(LineStep(decode), ZERO, Init(lines), Last(lines));
      assert ContentIn(decode, Init(lines)) + "" == ContentIn(decode, Init(lines));
    }
  }

  /** What is recorded of a stream, however it was read: the contents of all complete lines, joined, and the
      last prompt and completion counts. */
  lemma TotalsMean(decode: Decoder, ps: seq<Bytes>)
    ensures var lines := Init(Split(Concat(ps)));
            PushAll(LineStep(decode), Feed([], ZERO), ps).st ==
            Totals(ContentIn(decode, lines), LastPrompt(decode, lines), LastCompletion(decode, lines))
  {
    FragmentationIndependent(LineStep(decode), Feed([], ZERO), ps);
    assert [] + Concat(ps) == Concat(ps);
    FoldMeans(decode, Init(Split(Concat(ps))));
  }
}
