/** The stream writer as the program runs it: flags, a map of tool blocks, a counter for content block
    indices and an insertion sort at the end. Each method is proved against the transition system of
    module Stream, which knows neither the map nor the sort. */
module StreamWriting {
  import opened Prelude
  import opened Sse
  import opened Stream

  datatype Block = Block(anthropicIdx: nat, id: string, name: string, started: bool, closed: bool)

  /** A strictly ascending sequence of `n` numbers from 1 to `n` is 1, 2, ..., n. */
  lemma {:induction false} AscendingFillsRange(r: seq<nat>, n: nat, i: nat)
    requires |r| == n && i < n
    requires forall p :: 0 <= p < n ==> 1 <= r[p] <= n
    requires forall p, q :: 0 <= p < q < n ==> r[p] < r[q]
    ensures r[i] == i + 1
  {
    AtLeast(r, i);
    AtMost(r, n, i);
  }

  lemma {:induction false} AtLeast(r: seq<nat>, i: nat)
    requires i < |r|
    requires forall p :: 0 <= p < |r| ==> 1 <= r[p]
    requires forall p, q :: 0 <= p < q < |r| ==> r[p] < r[q]
    ensures r[i] >= i + 1
  {
    if i > 0 {
      AtLeast(r, i - 1);
    }
  }

  lemma {:induction false} AtMost(r: seq<nat>, n: nat, i: nat)
    requires |r| == n && i < n
    requires forall p :: 0 <= p < n ==> r[p] <= n
    requires forall p, q :: 0 <= p < q < n ==> r[p] < r[q]
    ensures r[i] <= i + 1
    decreases n - i
  {
    if i + 1 < n {
      AtMost(r, n, i + 1);
    }
  }

  // ----- The map of blocks that a list of tools stands for -----

  function BlockOf(i: nat, t: Tool): Block {
    Block(i + 1, t.id, t.name, t.started, t.closed)
  }

  ghost function MapOf(ts: seq<Tool>): map<int, Block>
  {
    if ts == [] then map[] else MapOf(Init(ts))[Last(ts).key := BlockOf(|ts| - 1, Last(ts))]
  }

  ghost predicate Distinct(ts: seq<Tool>)
  {
    ts == [] || (Distinct(Init(ts)) && Find(Init(ts), Last(ts).key) == |ts| - 1)
  }

  lemma FindInit(ts: seq<Tool>, k: int)
    requires ts != []
    ensures Find(ts, k) == if Find(Init(ts), k) < |ts| - 1 then Find(Init(ts), k)
                           else if Last(ts).key == k then |ts| - 1 else |ts|
  {
    if Find(Init(ts), k) < |ts| - 1 {
      assert ts[Find(Init(ts), k)].key == k;
    }
  }

  /** The block of a key sits at the content block index given by its position. */
  lemma {:induction false} Lookup(ts: seq<Tool>, k: int)
    requires Distinct(ts)
    ensures |MapOf(ts)| == |ts|
    ensures k in MapOf(ts) <==> Find(ts, k) < |ts|
    ensures k in MapOf(ts) ==> MapOf(ts)[k] == BlockOf(Find(ts, k), ts[Find(ts, k)])
  {
    if ts != [] {
      Lookup(Init(ts), k);
      Lookup(Init(ts), Last(ts).key);
      FindInit(ts, k);
    }
  }

  lemma {:induction false} PositionOf(ts: seq<Tool>, i: nat)
    requires Distinct(ts) && i < |ts|
    ensures Find(ts, ts[i].key) == i
  {
    FindInit(ts, ts[i].key);
    if i < |ts| - 1 {
      PositionOf(Init(ts), i);
    }
  }

  /** Replacing a block under its key replaces one entry of the list. */
  lemma {:induction false} UpdateOne(ts: seq<Tool>, i: nat, t: Tool)
    requires Distinct(ts) && i < |ts| && t.key == ts[i].key
    ensures Distinct(ts[i := t])
    ensures MapOf(ts[i := t]) == MapOf(ts)[t.key := BlockOf(i, t)]
  {
    var r := ts[i := t];
    if i == |ts| - 1 {
      assert Init(r) == Init(ts);
    } else {
      assert Init(r) == Init(ts)[i := t];
      UpdateOne(Init(ts), i, t);
      SameFind(Init(ts), i, t, Last(ts).key);
      assert Last(ts).key != t.key;
    }
  }

  lemma SameFind(ts: seq<Tool>, i: nat, t: Tool, k: int)
    requires i < |ts| && t.key == ts[i].key
    ensures Find(ts[i := t], k) == Find(ts, k)
  {
    if Find(ts, k) < |ts| {
      assert ts[i := t][Find(ts, k)].key == k;
    }
  }

  lemma AppendOne(ts: seq<Tool>, t: Tool)
    requires Distinct(ts) && Find(ts, t.key) == |ts|
    ensures Distinct(ts + [t])
    ensures MapOf(ts + [t]) == MapOf(ts)[t.key := BlockOf(|ts|, t)]
  {
    assert Init(ts + [t]) == ts;
  }

  /** The content block index under which the map holds a key. */
  function Rank(blocks: map<int, Block>, k: int): nat
  {
    if k in blocks then blocks[k].anthropicIdx else 0
  }

  ghost predicate AscendingTo(blocks: map<int, Block>, a: seq<int>, n: nat)
    requires n <= |a|
  {
    forall p, q :: 0 <= p < q < n ==> Rank(blocks, a[p]) < Rank(blocks, a[q])
  }

  ghost predicate KeysOf(blocks: map<int, Block>, a: seq<int>)
  {
    && (forall p :: 0 <= p < |a| ==> a[p] in blocks)
    && (forall p, q :: 0 <= p < q < |a| ==> a[p] != a[q])
  }

  /** The keys sorted by content block index are the keys in creation order. */
  lemma SortedIsCreationOrder(ts: seq<Tool>, a: seq<int>, p: nat)
    requires Distinct(ts) && |a| == |ts| && KeysOf(MapOf(ts), a) && AscendingTo(MapOf(ts), a, |a|)
    requires p < |a|
    ensures a[p] == ts[p].key
  {
    var r := seq(|a|, q requires 0 <= q < |a| => Rank(MapOf(ts), a[q]));
    forall q | 0 <= q < |a|
      ensures 1 <= r[q] <= |a|
    {
      Lookup(ts, a[q]);
    }
    AscendingFillsRange(r, |a|, p);
    assert r[p] == p + 1;
    Lookup(ts, a[p]);
  }

  /** Different keys have different content block indices. */
  lemma RankInjective(ts: seq<Tool>, j: int, k: int)
    requires Distinct(ts) && j in MapOf(ts) && k in MapOf(ts) && j != k
    ensures Rank(MapOf(ts), j) != Rank(MapOf(ts), k)
  {
    Lookup(ts, j);
    Lookup(ts, k);
  }

  class StreamWriter {
    const decode: Decoder
    var statusCode: int
    var errBuf: Bytes
    var carry: Bytes
    var started: bool
    var textOpen: bool
    var textClosed: bool
    var stopped: bool
    var finish: string
    var inputToks: int
    var outputToks: int
    var textBuf: string
    var toolBlocks: map<int, Block>
    var nextBlockIdx: nat
    var out: seq<Event>
    // the blocks in creation order
    ghost var tools: seq<Tool>

    ghost predicate Valid()
      reads this
    {
      toolBlocks == MapOf(tools) && Distinct(tools) && nextBlockIdx == |tools| + 1
    }

    ghost function Abs(): State
      reads this
    {
      State(started, textOpen, textClosed, stopped, finish, inputToks, outputToks, textBuf, tools, out)
    }

    ghost function View(): Writer
      reads this
    {
      Writer(statusCode, errBuf, Feed(carry, Abs()))
    }

    constructor (decode: Decoder)
      ensures Valid() && View() == FRESH && this.decode == decode
    {
      this.decode := decode;
      statusCode, errBuf, carry := 200, [], [];
      started, textOpen, textClosed, stopped := false, false, false, false;
      finish, textBuf, inputToks, outputToks := "", "", 0, 0;
      toolBlocks, nextBlockIdx, out, tools := map[], 1, [], [];
    }

    method EmitEvent(e: Event)
      requires Valid()
      modifies this`out
      ensures Valid() && Abs() == Stream.Emit(old(Abs()), e)
    {
      out := out + [e];
    }

    method EnsureStart()
      requires Valid()
      modifies this`started, this`out
      ensures Valid() && Abs() == Stream.EnsureStart(old(Abs()))
    {
      if started {
        return;
      }
      started := true;
      EmitEvent(MessageStart);
    }

    method EnsureTextBlock()
      requires Valid()
      modifies this`textOpen, this`out
      ensures Valid() && Abs() == EnsureText(old(Abs()))
    {
      if textOpen {
        return;
      }
      textOpen := true;
      EmitEvent(BlockStart(0, Text));
    }

    method CloseTextBlock()
      requires Valid()
      modifies this`textClosed, this`out
      ensures Valid() && Abs() == CloseText(old(Abs()))
    {
      if !textOpen || textClosed {
        return;
      }
      textClosed := true;
      EmitEvent(BlockStop(0));
    }

    /** Look the block up or create it, and record the first id and name. */
    method RegisterBlock(f: Fragment) returns (tb: Block)
      requires Valid()
      modifies this`toolBlocks, this`nextBlockIdx, this`tools
      ensures Valid() && tools == Register(old(tools), f)
      ensures tb == BlockOf(Find(old(tools), f.index), tools[Find(old(tools), f.index)])
    {
      Lookup(tools, f.index);
      ghost var i := Find(tools, f.index);
      ghost var known := f.index in toolBlocks;
      if f.index in toolBlocks {
        tb := toolBlocks[f.index];
      } else {
        tb := Block(nextBlockIdx, "", "", false, false);
        nextBlockIdx := nextBlockIdx + 1;
      }
      if f.id != "" && tb.id == "" {
        tb := tb.(id := f.id);
      }
      if f.name != "" && tb.name == "" {
        tb := tb.(name := f.name);
      }
      ghost var t := Tool(f.index, tb.id, tb.name, tb.started, tb.closed);
      if known {
        UpdateOne(tools, i, t);
        tools := tools[i := t];
      } else {
        AppendOne(tools, t);
        tools := tools + [t];
      }
      toolBlocks := toolBlocks[f.index := tb];
    }

    /** Replace the fields of a known block that are not its index. */
    method UpdateBlock(k: int, tb: Block, ghost i: nat)
      requires Valid() && i < |tools| && tools[i].key == k && tb.anthropicIdx == i + 1
      modifies this`toolBlocks, this`tools
      ensures Valid() && tools == old(tools)[i := Tool(k, tb.id, tb.name, tb.started, tb.closed)]
    {
      ghost var t := Tool(k, tb.id, tb.name, tb.started, tb.closed);
      UpdateOne(tools, i, t);
      tools := tools[i := t];
      toolBlocks := toolBlocks[k := tb];
    }

    method EnsureToolBlock(f: Fragment) returns (tb: Block)
      requires Valid()
      modifies this`toolBlocks, this`nextBlockIdx, this`tools, this`textClosed, this`out
      ensures Valid() && Abs() == OpenTool(old(Abs()).(tools := Register(old(tools), f)), Find(old(tools), f.index))
      ensures tb == BlockOf(Find(old(tools), f.index), tools[Find(old(tools), f.index)])
    {
      ghost var i := Find(tools, f.index);
      tb := RegisterBlock(f);
      if !tb.started && tb.name != "" {
        CloseTextBlock();
        tb := tb.(started := true);
        UpdateBlock(f.index, tb, i);
        EmitEvent(BlockStart(tb.anthropicIdx, ToolUse(tb.id, tb.name)));
      }
    }

    method CloseToolBlock(k: int, ghost i: nat)
      requires Valid() && i < |tools| && tools[i].key == k
      modifies this`toolBlocks, this`tools, this`out
      ensures Valid() && Abs() == CloseTool(old(Abs()), i) && tools[i].key == k
      ensures forall j :: 0 <= j < |tools| ==> tools[j].key == old(tools)[j].key
    {
      Lookup(tools, k);
      PositionOf(tools, i);
      var tb := toolBlocks[k];
      if !tb.started || tb.closed {
        return;
      }
      UpdateBlock(k, tb.(closed := true), i);
      EmitEvent(BlockStop(tb.anthropicIdx));
    }

    /** The keys of the map in whatever order the iteration yields them. */
    method CollectKeys() returns (ordered: array<int>)
      requires Valid()
      ensures fresh(ordered) && ordered.Length == |tools| && KeysOf(toolBlocks, ordered[..])
    {
      Lookup(tools, 0);
      ordered := new int[|toolBlocks|];
      var rest := toolBlocks.Keys;
      var n := 0;
      while rest != {}
        invariant rest <= toolBlocks.Keys && n + |rest| == ordered.Length
        invariant forall p :: 0 <= p < n ==> ordered[p] in toolBlocks.Keys && ordered[p] !in rest
        invariant forall p, q :: 0 <= p < q < n ==> ordered[p] != ordered[q]
        decreases rest
      {
        ghost var some := AnElement(rest);
        var k :| k in rest;
        ordered[n] := k;
        rest := rest - {k};
        n := n + 1;
      }
    }

    /** The insertion sort: whatever order the keys came in, they end up in creation order. */
    method SortByIndex(ordered: array<int>)
      requires Valid() && ordered.Length == |tools| && KeysOf(toolBlocks, ordered[..])
      modifies ordered
      ensures forall p :: 0 <= p < ordered.Length ==> ordered[p] == tools[p].key
    {
      var i := 1;
      while i < ordered.Length
        invariant 1 <= i && KeysOf(toolBlocks, ordered[..])
        invariant i <= ordered.Length ==> AscendingTo(toolBlocks, ordered[..], i)
        invariant i > ordered.Length ==> ordered.Length == 0
      {
        Insert(ordered, i);
        i := i + 1;
      }
      forall p | 0 <= p < ordered.Length
        ensures ordered[p] == tools[p].key
      {
        SortedIsCreationOrder(tools, ordered[..], p);
      }
    }

    /** Move the element at `i` left to its place in the sorted part. */
    method Insert(ordered: array<int>, i: nat)
      requires Valid() && 0 < i < ordered.Length && KeysOf(toolBlocks, ordered[..])
      requires AscendingTo(toolBlocks, ordered[..], i)
      modifies ordered
      ensures KeysOf(toolBlocks, ordered[..]) && AscendingTo(toolBlocks, ordered[..], i + 1)
    {
      var j := i;
      while j > 0 && Rank(toolBlocks, ordered[j - 1]) > Rank(toolBlocks, ordered[j])
        invariant 0 <= j <= i && KeysOf(toolBlocks, ordered[..])
        invariant forall p, q :: 0 <= p < q <= i && q != j ==>
                    Rank(toolBlocks, ordered[p]) < Rank(toolBlocks, ordered[q])
      {
        ghost var before := ordered[..];
        ordered[j - 1], ordered[j] := ordered[j], ordered[j - 1];
        assert ordered[..] == before[j - 1 := before[j]][j := before[j - 1]];
        j := j - 1;
      }
      if j > 0 {
        RankInjective(tools, ordered[..][j - 1], ordered[..][j]);
      }
    }

    /** Close the collected blocks, sorted by content block index. */
    method CloseAllTools()
      requires Valid()
      modifies this`toolBlocks, this`tools, this`out
      ensures Valid() && Abs() == CloseTools(old(Abs()), |old(tools)|)
    {
      ghost var s1 := Abs();
      var ordered := CollectKeys();
      SortByIndex(ordered);
      var i := 0;
      while i < ordered.Length
        invariant 0 <= i <= ordered.Length == |s1.tools| == |tools| && Valid()
        invariant forall p :: 0 <= p < ordered.Length ==> ordered[p] == tools[p].key
        invariant Abs() == CloseTools(s1, i)
      {
        CloseToolBlock(ordered[i], i);
        i := i + 1;
      }
    }

    method OpenShell()
      requires Valid()
      modifies this`started, this`textOpen, this`out
      ensures Valid() && Abs() == EnsureShell(old(Abs()))
    {
      EnsureStart();
      Lookup(tools, 0);
      if !textOpen && |toolBlocks| == 0 {
        EnsureTextBlock();
      }
    }

    method Finalize()
      requires Valid()
      modifies this`started, this`textOpen, this`textClosed, this`stopped, this`toolBlocks, this`tools, this`out
      ensures Valid() && Abs() == Stream.Finalize(old(Abs()))
    {
      if !stopped {
        OpenShell();
        stopped := true;
        CloseTextBlock();
        ghost var s1 := Abs();
        Lookup(tools, 0);
        if |toolBlocks| > 0 {
          CloseAllTools();
        }
        assert Abs() == CloseTools(s1, |s1.tools|);
        EmitEvent(MessageDelta(MapStopReason(finish), outputToks));
        EmitEvent(MessageStop);
      }
    }

    method HandleText(content: string)
      requires Valid()
      modifies this`started, this`textOpen, this`textBuf, this`out
      ensures Valid() && Abs() == StepText(old(Abs()), content)
    {
      if content != "" {
        EnsureStart();
        EnsureTextBlock();
        textBuf := textBuf + content;
        EmitEvent(TextDelta(0, content));
      }
    }

    method HandleFragment(f: Fragment)
      requires Valid()
      modifies this`started, this`textClosed, this`toolBlocks, this`nextBlockIdx, this`tools, this`out
      ensures Valid() && Abs() == StepFragment(old(Abs()), f)
    {
      EnsureStart();
      var tb := EnsureToolBlock(f);
      if f.args != "" && tb.started {
        EmitEvent(ArgsDelta(tb.anthropicIdx, f.args));
      }
    }

    method HandleFragments(fs: seq<Fragment>)
      requires Valid()
      modifies this`started, this`textClosed, this`toolBlocks, this`nextBlockIdx, this`tools, this`out
      ensures Valid() && Abs() == StepFragments(old(Abs()), fs)
    {
      ghost var s1 := Abs();
      var i := 0;
      while i < |fs|
        invariant 0 <= i <= |fs| && Valid()
        invariant Abs() == StepFragments(s1, fs[..i])
      {
        assert Init(fs[..i + 1]) == fs[..i];
        HandleFragment(fs[i]);
        i := i + 1;
      }
      assert fs[..i] == fs;
    }

    method HandleChoice(ch: Choice)
      requires Valid()
      modifies this`started, this`textOpen, this`textClosed, this`textBuf, this`finish, this`toolBlocks,
               this`nextBlockIdx, this`tools, this`out
      ensures Valid() && Abs() == StepChoice(old(Abs()), ch)
    {
      HandleText(ch.content);
      HandleFragments(ch.tools);
      if ch.finish.Some? && ch.finish.value != "" {
        finish := ch.finish.value;
      }
    }

    method HandleChunk(oc: Chunk)
      requires Valid()
      modifies this`started, this`textOpen, this`textClosed, this`textBuf, this`finish, this`toolBlocks,
               this`nextBlockIdx, this`tools, this`out, this`inputToks, this`outputToks
      ensures Valid() && Abs() == Apply(old(Abs()), Data(oc))
    {
      if oc.usage.Some? {
        inputToks := oc.usage.value.prompt;
        outputToks := oc.usage.value.completion;
      }
      if |oc.choices| != 0 {
        HandleChoice(oc.choices[0]);
      }
    }

    method HandleData(data: Bytes)
      requires Valid()
      modifies this`started, this`textOpen, this`textClosed, this`textBuf, this`finish, this`toolBlocks,
               this`nextBlockIdx, this`tools, this`out, this`inputToks, this`outputToks, this`stopped
      ensures Valid() && Abs() == Apply(old(Abs()), ItemOf(decode, Some(data)))
    {
      if data == [] {
      } else if data == DONE {
        Finalize();
      } else {
        var oc := decode(data);
        if oc.Some? {
          HandleChunk(oc.value);
        }
      }
    }

    method ProcessLine(line: Bytes)
      requires Valid()
      modifies this`started, this`textOpen, this`textClosed, this`textBuf, this`finish, this`toolBlocks,
               this`nextBlockIdx, this`tools, this`out, this`inputToks, this`outputToks, this`stopped
      ensures Valid() && Abs() == Apply(old(Abs()), ItemOf(decode, StreamPayload(line)))
    {
      if DATA_SPACE <= line || DATA <= line {
        HandleData(TrimSpace(TrimPrefix(TrimPrefix(line, DATA_SPACE), DATA)));
      }
    }

    method ProcessLines(lines: seq<Bytes>)
      requires Valid()
      modifies this`started, this`textOpen, this`textClosed, this`textBuf, this`finish, this`toolBlocks,
               this`nextBlockIdx, this`tools, this`out, this`inputToks, this`outputToks, this`stopped
      ensures Valid() && Abs() == FoldLines(LineStep(decode), old(Abs()), lines)
    {
      ghost var f := LineStep(decode);
      ghost var s0 := Abs();
      var i := 0;
      while i < |lines|
        invariant 0 <= i <= |lines| && Valid()
        invariant Abs() == FoldLines(f, s0, lines[..i])
      {
        FoldLinesSnoc(f, s0, lines[..i], lines[i]);
        assert lines[..i + 1] == lines[..i] + [lines[i]];
        ProcessLine(TrimRightCR(lines[i]));
        i := i + 1;
      }
      assert lines[..i] == lines;
    }

    method WriteHeader(code: int)
      requires Valid()
      modifies this`statusCode
      ensures Valid() && View() == old(View()).(status := code)
    {
      statusCode := code;
    }

    /** Buffer an error body, or split into lines and process every completed one. */
    method Write(p: Bytes)
      requires Valid()
      modifies this
      ensures Valid() && View() == Stream.Write(decode, old(View()), p)
    {
      if !started && statusCode >= 400 {
        errBuf := errBuf + p;
      } else {
        var lines := Split(carry + p);
        carry := lines[|lines| - 1];
        ProcessLines(lines[..|lines| - 1]);
      }
    }

    /** The end of the streaming request. */
    method FinishRequest()
      requires Valid()
      modifies this
      ensures Valid() && Abs() == Tail(decode, old(View())) && carry == []
    {
      if carry != [] {
        ProcessLine(TrimRightCR(carry));
        carry := [];
      }
      if started && !stopped {
        Finalize();
      }
    }
  }
}
