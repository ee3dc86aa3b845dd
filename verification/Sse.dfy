/** Byte-level reading of `data:` lines: the line splitter with a carry that the stream
    writer and the Grok accumulator share, and the two ways a payload is cut out of a line. */
module Sse {
  import opened Prelude

  newtype byte = x: int | 0 <= x < 256

  type Bytes = seq<byte>

  const LF: byte := 10
  const CR: byte := 13
  const SPACE: byte := 32
  // "data:", "data: " and "[DONE]"
  const DATA: Bytes := [100, 97, 116, 97, 58]
  const DATA_SPACE: Bytes := [100, 97, 116, 97, 58, 32]
  const DONE: Bytes := [91, 68, 79, 78, 69, 93]

  // ----- Splitting at newlines -----

  /** Putting a byte in front of a text that is already split. */
  function Prepend(c: byte, parts: seq<Bytes>): (r: seq<Bytes>)
    requires |parts| >= 1
    ensures |r| >= 1
  {
    if c == LF then [[]] + parts else [[c] + parts[0]] + parts[1..]
  }

  /** `strings.Split(s, "\n")`. */
  function Split(s: Bytes): (parts: seq<Bytes>)
    ensures |parts| >= 1
  {
    if s == [] then [[]]
    else
      Prepend(s[0], Split(s[1..]))
  }

  function Join(parts: seq<Bytes>): Bytes
    requires |parts| >= 1
  {
    if |parts| == 1 then parts[0] else parts[0] + [LF] + Join(parts[1..])
  }

  /** Splitting loses nothing and leaves no newline inside a part; a text without a newline is one part. */
  lemma {:induction false} SplitRoundTrip(s: Bytes)
    ensures Join(Split(s)) == s
    ensures forall i :: 0 <= i < |Split(s)| ==> LF !in Split(s)[i]
    ensures LF !in s ==> Split(s) == [s]
  {
    if s != [] {
      SplitRoundTrip(s[1..]);
      var rest := Split(s[1..]);
      assert s == [s[0]] + s[1..];
      if s[0] == LF {
        assert Split(s)[1..] == rest;
      } else {
        assert Split(s)[1..] == rest[1..];
        forall i | 0 <= i < |Split(s)|
          ensures LF !in Split(s)[i]
        {
          assert i > 0 ==> Split(s)[i] == rest[i];
        }
      }
    }
  }

  /** Putting a byte in front does not touch the last part when there are several, or when it is a newline. */
  lemma PrependSplice(c: byte, parts: seq<Bytes>, tail: seq<Bytes>)
    requires |parts| >= 1 && |tail| >= 1 && (c == LF || |parts| > 1)
    ensures Prepend(c, Init(parts) + tail) == Init(Prepend(c, parts)) + tail
    ensures Last(Prepend(c, parts)) == Last(parts)
  {
    if c == LF {
      InitOfConcat([[]], parts);
      Associative([[]], Init(parts), tail);
    } else {
      var head, rest := [[c] + parts[0]], parts[1..];
      assert Init(parts) + tail == [parts[0]] + (Init(rest) + tail);
      assert (Init(parts) + tail)[1..] == Init(rest) + tail;
      InitOfConcat(head, rest);
      Associative(head, Init(rest), tail);
    }
  }

  /** Only the last part touches what follows it. */
  lemma PrependConcat(c: byte, parts: seq<Bytes>, b: Bytes)
    requires |parts| >= 1
    ensures Prepend(c, Init(parts) + Split(Last(parts) + b))
         == Init(Prepend(c, parts)) + Split(Last(Prepend(c, parts)) + b)
  {
    if c == LF || |parts| > 1 {
      PrependSplice(c, parts, Split(Last(parts) + b));
    } else {
      var s := ([c] + parts[0]) + b;
      assert s[0] == c && s[1..] == parts[0] + b;
      assert Init(parts) + Split(parts[0] + b) == Split(parts[0] + b);
      assert Prepend(c, parts) == [[c] + parts[0]];
      assert [] + Split(s) == Split(s);
    }
  }

  /** Only the unfinished last part of `a` interacts with what follows it. */
  lemma {:induction false} SplitConcat(a: Bytes, b: Bytes)
    ensures Split(a + b) == Init(Split(a)) + Split(Last(Split(a)) + b)
  {
    if a == [] {
      assert a + b == b;
      assert Last(Split(a)) + b == b;
    } else {
      SplitConcat(a[1..], b);
      assert (a + b)[1..] == a[1..] + b;
      assert Split(a) == Prepend(a[0], Split(a[1..]));
      assert Split(a + b) == Prepend(a[0], Split(a[1..] + b));
      PrependConcat(a[0], Split(a[1..]), b);
    }
  }

  // ----- A line consumer fed with fragments -----

  /** What a consumer keeps between reads: the unfinished line and its own state. */
  datatype Feed<S> = Feed(carry: Bytes, st: S)

  function FoldLines<S>(f: (S, Bytes) -> S, st: S, lines: seq<Bytes>): S
    decreases |lines|
  {
    if lines == [] then st else FoldLines(f, f(st, lines[0]), lines[1..])
  }

  /** One read of `p`: every completed line is handed to `f`, the rest is carried. */
  function Push<S>(f: (S, Bytes) -> S, fd: Feed<S>, p: Bytes): Feed<S>
  {
    var lines := Split(fd.carry + p);
    Feed(Last(lines), FoldLines(f, fd.st, Init(lines)))
  }

  function PushAll<S>(f: (S, Bytes) -> S, fd: Feed<S>, ps: seq<Bytes>): Feed<S>
    decreases |ps|
  {
    if ps == [] then fd else PushAll(f, Push(f, fd, ps[0]), ps[1..])
  }

  function Concat(ps: seq<Bytes>): Bytes
  {
    if ps == [] then [] else ps[0] + Concat(ps[1..])
  }

  lemma {:induction false} FoldLinesConcat<S>(f: (S, Bytes) -> S, st: S, a: seq<Bytes>, b: seq<Bytes>)
    ensures FoldLines(f, st, a + b) == FoldLines(f, FoldLines(f, st, a), b)
    decreases |a|
  {
    if a == [] {
      assert a + b == b;
    } else {
      assert (a + b)[1..] == a[1..] + b;
      FoldLinesConcat(f, f(st, a[0]), a[1..], b);
    }
  }

  lemma FoldLinesSnoc<S>(f: (S, Bytes) -> S, st: S, a: seq<Bytes>, line: Bytes)
    ensures FoldLines(f, st, a + [line]) == f(FoldLines(f, st, a), line)
  {
    FoldLinesConcat(f, st, a, [line]);
    assert [line][1..] == [];
  }

  /** The carry never holds a newline. */
  lemma PushKeepsCarryOpen<S>(f: (S, Bytes) -> S, fd: Feed<S>, p: Bytes)
    ensures LF !in Push(f, fd, p).carry
  {
    SplitRoundTrip(fd.carry + p);
  }

  /** Reading `p` and then `q` is reading `p + q`, wherever the cut falls. */
  lemma PushConcat<S>(f: (S, Bytes) -> S, fd: Feed<S>, p: Bytes, q: Bytes)
    ensures Push(f, Push(f, fd, p), q) == Push(f, fd, p + q)
  {
    var lines := Split(fd.carry + p);
    var tail := Split(Last(lines) + q);
    SplitConcat(fd.carry + p, q);
    assert fd.carry + (p + q) == (fd.carry + p) + q;
    assert Init(Init(lines) + tail) == Init(lines) + Init(tail);
    FoldLinesConcat(f, fd.st, Init(lines), Init(tail));
  }

  /** Fragmentation independence: any way of cutting a byte stream gives the state of one read. */
  lemma {:induction false} FragmentationIndependent<S>(f: (S, Bytes) -> S, fd: Feed<S>, ps: seq<Bytes>)
    requires LF !in fd.carry
    ensures PushAll(f, fd, ps) == Push(f, fd, Concat(ps))
    decreases |ps|
  {
    if ps == [] {
      assert fd.carry + [] == fd.carry;
      SplitRoundTrip(fd.carry);
    } else {
      PushKeepsCarryOpen(f, fd, ps[0]);
      FragmentationIndependent(f, Push(f, fd, ps[0]), ps[1..]);
      PushConcat(f, fd, ps[0], Concat(ps[1..]));
    }
  }

  // ----- Trimming -----

  /** The ASCII part of what `strings.TrimSpace` removes. */
  predicate IsSpace(b: byte) {
    b == SPACE || 9 <= b <= 13
  }

  function TrimLeftSpace(s: Bytes): Bytes
  {
    if s != [] && IsSpace(s[0]) then TrimLeftSpace(s[1..]) else s
  }

  function TrimRightSpace(s: Bytes): Bytes
  {
    if s != [] && IsSpace(Last(s)) then TrimRightSpace(Init(s)) else s
  }

  function TrimSpace(s: Bytes): Bytes {
    TrimRightSpace(TrimLeftSpace(s))
  }

  /** `strings.TrimRight(s, "\r")`, as the stream writer uses it. */
  function TrimRightCR(s: Bytes): Bytes
  {
    if s != [] && Last(s) == CR then TrimRightCR(Init(s)) else s
  }

  /** What `bufio.ScanLines` does: at most one trailing CR is dropped. */
  function DropCR(s: Bytes): Bytes
  {
    if s != [] && Last(s) == CR then Init(s) else s
  }

  function TrimPrefix(s: Bytes, p: Bytes): Bytes
  {
    if p <= s then s[|p|..] else s
  }

  lemma {:induction false} TrimSpaceShape(s: Bytes)
    ensures |TrimSpace(s)| <= |s|
    ensures s != [] && IsSpace(s[0]) ==> TrimSpace(s) == TrimSpace(s[1..])
    ensures s != [] && !IsSpace(s[0]) ==> TrimSpace(s) != [] && TrimSpace(s)[0] == s[0]
  {
    TrimLeftShorter(s);
    TrimRightPrefix(TrimLeftSpace(s));
    if s != [] && !IsSpace(s[0]) {
      TrimRightKeepsHead(s);
    }
  }

  lemma {:induction false} TrimLeftShorter(s: Bytes)
    ensures |TrimLeftSpace(s)| <= |s|
  {
    if s != [] && IsSpace(s[0]) {
      TrimLeftShorter(s[1..]);
    }
  }

  lemma {:induction false} TrimRightPrefix(s: Bytes)
    ensures TrimRightSpace(s) <= s
  {
    if s != [] && IsSpace(Last(s)) {
      TrimRightPrefix(Init(s));
    }
  }

  lemma {:induction false} TrimRightKeepsHead(s: Bytes)
    requires s != [] && !IsSpace(s[0])
    ensures TrimRightSpace(s) != [] && TrimRightSpace(s)[0] == s[0]
  {
    if IsSpace(Last(s)) {
      TrimRightKeepsHead(Init(s));
    }
  }

  /** A trailing space changes nothing after trimming. */
  lemma {:induction false} TrimSpaceIgnoresTail(s: Bytes, b: byte)
    requires IsSpace(b)
    ensures TrimSpace(s + [b]) == TrimSpace(s)
  {
    if s == [] {
      assert s + [b] == [b];
      assert TrimLeftSpace([b]) == TrimLeftSpace([b][1..]);
    } else if IsSpace(s[0]) {
      TrimSpaceIgnoresTail(s[1..], b);
      assert (s + [b])[1..] == s[1..] + [b];
    } else {
      assert Init(s + [b]) == s;
      assert TrimLeftSpace(s + [b]) == s + [b];
    }
  }

  // ----- The payload of a line -----

  /** The stream writer: both prefixes are tried, one after the other. */
  function StreamPayload(line: Bytes): Option<Bytes>
  {
    if !(DATA_SPACE <= line) && !(DATA <= line) then None
    else Some(TrimSpace(TrimPrefix(TrimPrefix(line, DATA_SPACE), DATA)))
  }

  /** The batch reassembler: one prefix. */
  function BatchPayload(line: Bytes): Option<Bytes>
  {
    if !(DATA <= line) then None else Some(TrimSpace(TrimPrefix(line, DATA)))
  }

  lemma TrimPrefixShape(line: Bytes)
    ensures DATA_SPACE <= line <==> DATA <= line && |line| > 5 && line[5] == SPACE
    ensures DATA_SPACE <= line ==> line[5..][1..] == line[6..]
  {
    if DATA_SPACE <= line {
      assert DATA == DATA_SPACE[..5];
      assert line[5] == DATA_SPACE[5];
    }
    if DATA <= line && |line| > 5 && line[5] == SPACE {
      assert line[..6] == line[..5] + [line[5]];
      assert DATA_SPACE == DATA + [SPACE];
    }
  }

  /** On the same line the two cuts agree exactly when the prefix is not doubled. */
  lemma PayloadsAgreeOnLine(line: Bytes)
    ensures StreamPayload(line) == BatchPayload(line) <==> !(DATA_SPACE + DATA <= line)
  {
    TrimPrefixShape(line);
    var doubled := DATA_SPACE + DATA <= line;
    assert (DATA_SPACE + DATA)[..6] == DATA_SPACE;
    assert doubled ==> DATA_SPACE <= line;
    if DATA_SPACE <= line {
      var rest := line[6..];
      assert doubled <==> DATA <= rest by {
        if DATA <= rest {
          assert line[..11] == line[..6] + rest[..5];
        }
        if doubled {
          assert rest[..5] == line[..11][6..];
        }
      }
      TrimSpaceShape(line[5..]);
      assert BatchPayload(line) == Some(TrimSpace(rest));
      if doubled {
        assert rest[0] == DATA[0];
        TrimSpaceIsLonger(rest);
      }
    }
  }

  /** Behind a doubled prefix the batch payload still starts with `data:`, so it is strictly longer. */
  lemma TrimSpaceIsLonger(rest: Bytes)
    requires DATA <= rest
    ensures |TrimSpace(rest)| > |TrimSpace(rest[5..])|
  {
    var tail := rest[5..];
    assert rest == DATA + tail;
    assert TrimLeftSpace(rest) == rest;
    TrimRightOfPrefixed(DATA, tail);
    TrimLeftThenRight(tail);
  }

  lemma {:induction false} TrimRightOfPrefixed(p: Bytes, s: Bytes)
    requires p != [] && !IsSpace(Last(p))
    ensures TrimRightSpace(p + s) == p + TrimRightSpace(s)
  {
    if s == [] {
      assert p + s == p;
    } else {
      assert Last(p + s) == Last(s);
      if IsSpace(Last(s)) {
        assert Init(p + s) == p + Init(s);
        TrimRightOfPrefixed(p, Init(s));
      }
    }
  }

  lemma {:induction false} TrimLeftThenRight(s: Bytes)
    ensures |TrimSpace(s)| <= |TrimRightSpace(s)|
  {
    if s != [] && IsSpace(s[0]) {
      TrimLeftThenRight(s[1..]);
      assert s == [s[0]] + s[1..];
      TrimRightMonotone(s[0], s[1..]);
    }
  }

  lemma {:induction false} TrimRightMonotone(b: byte, s: Bytes)
    ensures |TrimRightSpace(s)| <= |TrimRightSpace([b] + s)|
  {
    if s != [] && IsSpace(Last(s)) {
      assert Init([b] + s) == [b] + Init(s);
      TrimRightMonotone(b, Init(s));
    }
  }

  lemma TrimPrefixBeforeCR(x: Bytes, p: Bytes)
    requires p != [] && Last(p) != CR
    ensures TrimPrefix(x + [CR], p) == TrimPrefix(x, p) + [CR]
    ensures p <= x + [CR] <==> p <= x
  {
    InitOfConcat(x, [CR]);
    assert x + Init([CR]) == x;
    PrefixOfInit(x + [CR], p);
    if p <= x {
      assert (x + [CR])[|p|..] == x[|p|..] + [CR];
    }
  }

  /** One CR at the end of a line changes neither payload. */
  lemma OneCR(x: Bytes)
    ensures StreamPayload(x + [CR]) == StreamPayload(x) && BatchPayload(x + [CR]) == BatchPayload(x)
    ensures DATA_SPACE + DATA <= x + [CR] <==> DATA_SPACE + DATA <= x
  {
    TrimPrefixBeforeCR(x, DATA_SPACE);
    TrimPrefixBeforeCR(x, DATA);
    TrimPrefixBeforeCR(x, DATA_SPACE + DATA);
    TrimSpaceIgnoresTail(TrimPrefix(x, DATA), CR);
    var inner := TrimPrefix(x, DATA_SPACE);
    TrimPrefixBeforeCR(inner, DATA);
    TrimSpaceIgnoresTail(TrimPrefix(inner, DATA), CR);
  }

  /** How many CRs end the line makes no difference to either payload. */
  lemma {:induction false} PayloadIgnoresCR(line: Bytes)
    ensures StreamPayload(TrimRightCR(line)) == StreamPayload(line)
    ensures BatchPayload(TrimRightCR(line)) == BatchPayload(line)
    ensures StreamPayload(DropCR(line)) == StreamPayload(line) && BatchPayload(DropCR(line)) == BatchPayload(line)
    ensures DATA_SPACE + DATA <= TrimRightCR(line) <==> DATA_SPACE + DATA <= line
  {
    if line != [] && Last(line) == CR {
      PayloadIgnoresCR(Init(line));
      assert line == Init(line) + [CR];
      OneCR(Init(line));
    }
  }

  lemma PrefixOfInit(line: Bytes, p: Bytes)
    requires line != [] && Last(line) == CR
    requires p != [] && Last(p) != CR
    ensures p <= line <==> p <= Init(line)
  {
    if p <= line {
      assert |p| == |line| ==> p == line;
      assert Init(line)[..|p|] == line[..|p|];
    }
    if p <= Init(line) {
      assert line[..|p|] == Init(line)[..|p|];
    }
  }

  /** Stream and batch read the same payload from a raw line if and only if it does not
      start with `data: data:`. */
  lemma PayloadAgreement(raw: Bytes)
    ensures StreamPayload(TrimRightCR(raw)) == BatchPayload(DropCR(raw)) <==> !(DATA_SPACE + DATA <= raw)
  {
    PayloadIgnoresCR(raw);
    PayloadsAgreeOnLine(TrimRightCR(raw));
  }

  // ----- Payloads, spelled out -----

  /** ASCII white space: tab, line feed, vertical tab, form feed, carriage return, space. */
  predicate White(b: byte) {
    b == 9 || b == 10 || b == 11 || b == 12 || b == 13 || b == 32
  }

  ghost predicate AllWhite(s: Bytes) {
    forall i :: 0 <= i < |s| ==> White(s[i])
  }

  ghost predicate BareEnds(core: Bytes) {
    core != [] ==> !White(core[0]) && !White(core[|core| - 1])
  }

  /** `core` is `s` without the white space around it. */
  ghost predicate IsCore(s: Bytes, core: Bytes) {
    BareEnds(core) && exists left: Bytes, right: Bytes :: Around(s, left, core, right)
  }

  ghost predicate Around(s: Bytes, left: Bytes, core: Bytes, right: Bytes) {
    s == left + core + right && AllWhite(left) && AllWhite(right)
  }

  lemma {:induction false} TrimLeftCore(left: Bytes, rest: Bytes)
    requires AllWhite(left) && (rest != [] ==> !White(rest[0]))
    ensures TrimLeftSpace(left + rest) == rest
  {
    if left == [] {
      assert left + rest == rest;
    } else {
      assert (left + rest)[1..] == left[1..] + rest;
      TrimLeftCore(left[1..], rest);
    }
  }

  lemma {:induction false} TrimRightCore(core: Bytes, right: Bytes)
    requires AllWhite(right) && BareEnds(core)
    ensures TrimRightSpace(core + right) == core
  {
    if right == [] {
      assert core + right == core;
    } else {
      InitOfConcat(core, right);
      TrimRightCore(core, Init(right));
    }
  }

  lemma {:induction false} AllWhiteTrims(s: Bytes)
    requires AllWhite(s)
    ensures TrimSpace(s) == []
  {
    TrimLeftCore(s, []);
    assert s + [] == s;
  }

  lemma CoreIsTrimmed(s: Bytes, core: Bytes)
    requires IsCore(s, core)
    ensures TrimSpace(s) == core
  {
    var left: Bytes, right: Bytes :| Around(s, left, core, right);
    if core == [] {
      assert AllWhite(s);
      AllWhiteTrims(s);
    } else {
      assert s == left + (core + right);
      TrimLeftCore(left, core + right);
      TrimRightCore(core, right);
    }
  }

  lemma {:induction false} TrimLeftCuts(s: Bytes) returns (left: Bytes)
    ensures s == left + TrimLeftSpace(s) && AllWhite(left)
    ensures TrimLeftSpace(s) != [] ==> !White(TrimLeftSpace(s)[0])
  {
    left := [];
    if s != [] && IsSpace(s[0]) {
      left := TrimLeftCuts(s[1..]);
      assert s == [s[0]] + s[1..];
      Associative([s[0]], left, TrimLeftSpace(s[1..]));
      left := [s[0]] + left;
    }
  }

  lemma {:induction false} TrimRightCuts(s: Bytes) returns (right: Bytes)
    ensures s == TrimRightSpace(s) + right && AllWhite(right)
    ensures TrimRightSpace(s) != [] ==> !White(Last(TrimRightSpace(s)))
  {
    right := [];
    if s != [] && IsSpace(Last(s)) {
      right := TrimRightCuts(Init(s));
      assert s == Init(s) + [Last(s)];
      Associative(TrimRightSpace(Init(s)), right, [Last(s)]);
      right := right + [Last(s)];
    }
  }

  /** Trimming finds the core of any text. */
  lemma TrimmedIsCore(s: Bytes)
    ensures IsCore(s, TrimSpace(s))
  {
    var left := TrimLeftCuts(s);
    var t := TrimLeftSpace(s);
    var right := TrimRightCuts(t);
    TrimRightPrefix(t);
    Associative(left, TrimSpace(s), right);
    assert Around(s, left, TrimSpace(s), right);
  }

  /** The payload of a `data:` line is the core of what follows, for stream and batch, unless that begins
      with `data:` once more. */
  lemma PayloadIsCore(line: Bytes, rest: Bytes, core: Bytes)
    requires line == [100, 97, 116, 97, 58] + rest && IsCore(rest, core)
    requires !([100, 97, 116, 97, 58] <= core)
    ensures StreamPayload(line) == Some(core) && BatchPayload(line) == Some(core)
  {
    assert line[5..] == rest;
    CoreIsTrimmed(rest, core);
    if DATA_SPACE + DATA <= line {
      var left: Bytes, right: Bytes :| Around(rest, left, core, right);
      assert (DATA_SPACE + DATA)[6..] == DATA;
      assert rest[1..6] == line[6..11] == DATA;
      assert rest[0] == line[5] == SPACE;
      DoubledCore(rest, left, core, right);
    }
    PayloadsAgreeOnLine(line);
  }

  lemma DoubledCore(rest: Bytes, left: Bytes, core: Bytes, right: Bytes)
    requires Around(rest, left, core, right) && BareEnds(core)
    requires |rest| >= 6 && rest[0] == SPACE && rest[1..6] == DATA
    ensures DATA <= core
  {
    forall i | 0 <= i < 5
      ensures rest[i + 1] == DATA[i] && !White(rest[i + 1])
    {
      assert rest[1..6][i] == rest[i + 1];
    }
    assert forall i :: 0 <= i < |left| ==> rest[i] == left[i];
    assert forall i :: |left| + |core| <= i < |rest| ==> rest[i] == right[i - |left| - |core|];
    assert core != [] ==> core[0] == rest[|left|];
    assert White(rest[0]) && !White(rest[0 + 1]) && !White(rest[4 + 1]);
    assert |left| == 1 && |core| >= 5;
    forall i | 0 <= i < 5
      ensures core[i] == DATA[i]
    {
      assert core[i] == rest[i + 1];
    }
    assert core[..5] == DATA;
  }

  /** Any other line carries nothing. */
  lemma OtherLinesCarryNothing(line: Bytes)
    requires !([100, 97, 116, 97, 58] <= line)
    ensures StreamPayload(line).None? && BatchPayload(line).None?
  {
    TrimPrefixShape(line);
  }
}
