/** Fallback combos: candidates are tried in order behind a buffering writer, and one answer is sent. */
module Fallback {
  import opened Prelude

  // ----- Buffered responses -----

  type Headers = map<string, seq<string>>

  /** What an upstream handler does to the response writer. */
  datatype WriterOp =
    | AddHeader(k: string, v: string)
    | SetHeader(k: string, v: string)
    | Status(code: int)
    | Body(bytes: seq<int>)

  datatype Recorded = Recorded(status: int, written: bool, buf: seq<int>, headers: Headers)

  const BLANK: Recorded := Recorded(200, false, [], map[])

  function Values(h: Headers, k: string): seq<string> {
    if k in h then h[k] else []
  }

  function Added(h: Headers, k: string, v: string): Headers {
    h[k := Values(h, k) + [v]]
  }

  /** The first status wins; a body write fixes the status as it stands. */
  function Record1(r: Recorded, op: WriterOp): Recorded
  {
    match op
    case AddHeader(k, v) => r.(headers := Added(r.headers, k, v))
    case SetHeader(k, v) => r.(headers := r.headers[k := [v]])
    case Status(code) => if r.written then r else r.(status := code, written := true)
    case Body(bytes) => r.(written := true, buf := r.buf + bytes)
  }

  function Record(ops: seq<WriterOp>): Recorded
  {
    if ops == [] then BLANK else Record1(Record(ops[..|ops| - 1]), ops[|ops| - 1])
  }

  // ----- What a recording holds, read off the handler's operations -----

  /** All body bytes, in order. */
  function BodyBytes(ops: seq<WriterOp>): seq<int>
  {
    if ops == [] then [] else (if ops[0].Body? then ops[0].bytes else []) + BodyBytes(ops[1..])
  }

  /** The first status, unless body bytes came before it. */
  function FirstStatus(ops: seq<WriterOp>): int
  {
    if ops == [] || ops[0].Body? then 200
    else if ops[0].Status? then ops[0].code
    else FirstStatus(ops[1..])
  }

  predicate SetsHeader(ops: seq<WriterOp>, k: string) {
    exists i :: 0 <= i < |ops| && ops[i].SetHeader? && ops[i].k == k
  }

  /** The values set or added for a header since it was last set. */
  function HeaderValues(ops: seq<WriterOp>, k: string): seq<string>
  {
    if ops == [] then []
    else if (ops[0].AddHeader? || ops[0].SetHeader?) && ops[0].k == k && !SetsHeader(ops[1..], k)
    then [ops[0].v] + HeaderValues(ops[1..], k)
    else HeaderValues(ops[1..], k)
  }

  predicate Commits(ops: seq<WriterOp>) {
    exists i :: 0 <= i < |ops| && (ops[i].Body? || ops[i].Status?)
  }

  lemma Tail1(ops: seq<WriterOp>, op: WriterOp)
    requires ops != []
    ensures (ops + [op])[0] == ops[0] && (ops + [op])[1..] == ops[1..] + [op]
  {
  }

  lemma {:induction false} BodySnoc(ops: seq<WriterOp>, op: WriterOp)
    ensures BodyBytes(ops + [op]) == BodyBytes(ops) + (if op.Body? then op.bytes else [])
  {
    var more := if op.Body? then op.bytes else [];
    if ops == [] {
      assert [op][1..] == [] && more + [] == more && [] + more == more;
    } else {
      Tail1(ops, op);
      BodySnoc(ops[1..], op);
      Associative(if ops[0].Body? then ops[0].bytes else [], BodyBytes(ops[1..]), more);
    }
  }

  lemma {:induction false} StatusSnoc(ops: seq<WriterOp>, op: WriterOp)
    ensures FirstStatus(ops + [op]) ==
            if Commits(ops) then FirstStatus(ops) else if op.Status? then op.code else 200
  {
    if ops == [] {
      assert [op][1..] == [];
    } else {
      Tail1(ops, op);
      StatusSnoc(ops[1..], op);
      CommitsTail(ops);
    }
  }

  lemma CommitsTail(ops: seq<WriterOp>)
    requires ops != []
    ensures Commits(ops) <==> ops[0].Body? || ops[0].Status? || Commits(ops[1..])
  {
    if Commits(ops[1..]) {
      var i :| 0 <= i < |ops| - 1 && (ops[1..][i].Body? || ops[1..][i].Status?);
      assert ops[i + 1].Body? || ops[i + 1].Status?;
    }
    if Commits(ops) && !ops[0].Body? && !ops[0].Status? {
      var i :| 0 <= i < |ops| && (ops[i].Body? || ops[i].Status?);
      assert ops[1..][i - 1] == ops[i];
    }
  }

  lemma CommitsSnoc(ops: seq<WriterOp>, op: WriterOp)
    ensures Commits(ops + [op]) <==> Commits(ops) || op.Body? || op.Status?
  {
    var all := ops + [op];
    if Commits(ops) {
      var i :| 0 <= i < |ops| && (ops[i].Body? || ops[i].Status?);
      assert all[i] == ops[i];
    }
    assert all[|ops|] == op;
  }

  lemma SetsSnoc(ops: seq<WriterOp>, op: WriterOp, k: string)
    ensures SetsHeader(ops + [op], k) <==> SetsHeader(ops, k) || (op.SetHeader? && op.k == k)
  {
    var all := ops + [op];
    if SetsHeader(ops, k) {
      var i :| 0 <= i < |ops| && ops[i].SetHeader? && ops[i].k == k;
      assert all[i] == ops[i];
    }
    assert all[|ops|] == op;
  }

  lemma {:induction false} HeaderSnoc(ops: seq<WriterOp>, op: WriterOp, k: string)
    ensures HeaderValues(ops + [op], k) ==
            if op.SetHeader? && op.k == k then [op.v]
            else if op.AddHeader? && op.k == k then HeaderValues(ops, k) + [op.v]
            else HeaderValues(ops, k)
  {
    if ops == [] {
      assert [op][1..] == [] && !SetsHeader([], k);
    } else {
      Tail1(ops, op);
      HeaderSnoc(ops[1..], op, k);
      SetsSnoc(ops[1..], op, k);
    }
  }

  /** What any handler leaves in the recording: its body bytes in order, its first status unless body bytes
      came before, and for every header the values since it was last set. */
  lemma {:induction false} RecordMeans(ops: seq<WriterOp>)
    ensures var r := Record(ops);
            && r.buf == BodyBytes(ops) && r.status == FirstStatus(ops) && (r.written <==> Commits(ops))
            && (forall k :: Values(r.headers, k) == HeaderValues(ops, k))
  {
    if ops != [] {
      var front, op := ops[..|ops| - 1], ops[|ops| - 1];
      assert ops == front + [op];
      RecordMeans(front);
      BodySnoc(front, op);
      StatusSnoc(front, op);
      CommitsSnoc(front, op);
      forall k
        ensures Values(Record(ops).headers, k) == HeaderValues(ops, k)
      {
        HeaderSnoc(front, op, k);
      }
      UncommittedIs200(front);
    }
  }

  lemma {:induction false} UncommittedIs200(ops: seq<WriterOp>)
    ensures !Commits(ops) ==> FirstStatus(ops) == 200
  {
    if ops != [] {
      CommitsTail(ops);
      UncommittedIs200(ops[1..]);
    }
  }

  /** The client's side: header map, the statuses committed so far, and the body bytes. */
  datatype Response = Response(headers: Headers, statuses: seq<int>, body: seq<int>)

  function Merged(a: Headers, b: Headers): (h: Headers)
    ensures forall k :: k in h <==> k in a || (k in b && b[k] != [])
    ensures forall k :: k in h ==> h[k] == Values(a, k) + Values(b, k)
  {
    map k | k in a.Keys + b.Keys && (k in a || b[k] != []) :: Values(a, k) + Values(b, k)
  }

  /** The headers that are not in `rest`. */
  function Without(h: Headers, rest: set<string>): Headers {
    map k | k in h && k !in rest :: h[k]
  }

  /** `flush` merges the headers and writes status and body once. */
  function Flushed(r: Response, rec: Recorded): Response {
    Response(Merged(r.headers, rec.headers), r.statuses + [rec.status], r.body + rec.buf)
  }

  class ResponseWriter {
    var headers: Headers
    var statuses: seq<int>
    var body: seq<int>

    ghost function View(): Response
      reads this
    {
      Response(headers, statuses, body)
    }

    constructor ()
      ensures View() == Response(map[], [], [])
    {
      headers, statuses, body := map[], [], [];
    }
  }

  class BufferedWriter {
    const target: ResponseWriter
    var buf: seq<int>
    var status: int
    var headers: Headers
    var written: bool

    function View(): Recorded
      reads this
    {
      Recorded(status, written, buf, headers)
    }

    constructor (target: ResponseWriter)
      ensures View() == BLANK && this.target == target
    {
      this.target := target;
      buf, status, headers, written := [], 200, map[], false;
    }

    method WriteHeader(code: int)
      modifies this`status, this`written
      ensures View() == Record1(old(View()), Status(code))
    {
      if written {
        return;
      }
      status := code;
      written := true;
    }

    method Write(data: seq<int>)
      modifies this`buf, this`written
      ensures View() == Record1(old(View()), Body(data))
    {
      if !written {
        written := true;
      }
      buf := buf + data;
    }

    method AddHeaderValue(k: string, v: string)
      modifies this`headers
      ensures View() == Record1(old(View()), AddHeader(k, v))
    {
      headers := Added(headers, k, v);
    }

    method SetHeaderValue(k: string, v: string)
      modifies this`headers
      ensures View() == Record1(old(View()), SetHeader(k, v))
    {
      headers := headers[k := [v]];
    }

    /** The upstream handler runs against this writer. */
    method Play(ops: seq<WriterOp>)
      requires View() == BLANK
      modifies this`buf, this`status, this`headers, this`written
      ensures View() == Record(ops)
    {
      for i := 0 to |ops|
        invariant View() == Record(ops[..i])
      {
        assert ops[..i + 1][..i] == ops[..i];
        match ops[i] {
          case AddHeader(k, v) => AddHeaderValue(k, v);
          case SetHeader(k, v) => SetHeaderValue(k, v);
          case Status(code) => WriteHeader(code);
          case Body(bytes) => Write(bytes);
        }
      }
      assert ops[..|ops|] == ops;
    }

    /** Each value is added to what middleware already set; the keys come in any order. */
    method Flush()
      modifies target
      ensures target.View() == Flushed(old(target.View()), View())
    {
      var rest := headers.Keys;
      ghost var before := target.headers;
      MergeNone(before, headers);
      while rest != {}
        invariant rest <= headers.Keys
        invariant target.headers == Merged(before, Without(headers, rest))
        invariant target.statuses == old(target.statuses) && target.body == old(target.body)
        decreases rest
      {
        ghost var some := AnElement(rest);
        var k :| k in rest;
        AddAll(k);
        OneMore(before, headers, rest, k);
        rest := rest - {k};
      }
      assert Without(headers, {}) == headers;
      target.statuses := target.statuses + [status];
      if |buf| > 0 {
        target.body := target.body + buf;
      }
      assert buf == [] ==> target.body + buf == target.body;
    }

    method AddAll(k: string)
      requires k in headers
      modifies target`headers
      ensures target.headers == Appended(old(target.headers), k, headers[k])
    {
      var vs := headers[k];
      for i := 0 to |vs|
        invariant target.headers == Appended(old(target.headers), k, vs[..i])
      {
        ghost var h := Values(old(target.headers), k);
        assert vs[..i + 1] == vs[..i] + [vs[i]];
        assert (h + vs[..i]) + [vs[i]] == h + vs[..i + 1];
        assert h + [] == h;
        target.headers := Added(target.headers, k, vs[i]);
      }
      assert vs[..|vs|] == vs;
    }
  }

  function Appended(h: Headers, k: string, vs: seq<string>): Headers {
    if vs == [] then h else h[k := Values(h, k) + vs]
  }

  lemma MergeNone(before: Headers, h: Headers)
    ensures Merged(before, Without(h, h.Keys)) == before
  {
    forall k | k in before
      ensures Values(before, k) + [] == before[k]
    {
    }
  }

  lemma OneMoreAt(before: Headers, h: Headers, rest: set<string>, k: string, j: string)
    requires k in rest && k in h
    ensures var m := Appended(Merged(before, Without(h, rest)), k, h[k]); var m' := Merged(before, Without(h, rest - {k}));
            (j in m <==> j in m') && (j in m ==> m[j] == m'[j])
  {
    if j == k {
      assert k !in Without(h, rest) && k in Without(h, rest - {k});
      assert Values(before, k) + [] == Values(before, k);
    } else {
      assert j in Without(h, rest) <==> j in Without(h, rest - {k});
    }
  }

  lemma OneMore(before: Headers, h: Headers, rest: set<string>, k: string)
    requires k in rest && k in h
    ensures Merged(before, Without(h, rest - {k})) == Appended(Merged(before, Without(h, rest)), k, h[k])
  {
    var m := Appended(Merged(before, Without(h, rest)), k, h[k]);
    var m' := Merged(before, Without(h, rest - {k}));
    forall j
      ensures (j in m <==> j in m') && (j in m ==> m[j] == m'[j])
    {
      OneMoreAt(before, h, rest, k, j);
    }
  }

  // ----- Routing of a candidate -----

  datatype Json = Str(s: string) | Other(id: int)

  /** The fields of a request body; the program touches the first two and looks for the third. */
  datatype Field = Model | ReasoningEffort | Reasoning | Named(name: string)

  type Request = map<Field, Json>

  datatype Upstream = Unset | Grok | CodeBuddy

  /** What the custom registry says about a model. */
  datatype Route = Route(model: string, upstream: Upstream, modelName: string)

  /** `resolve` is the custom registry, `expand` the alias table and `isGrok` the prefix test. */
  datatype Routing = Routing(resolve: string -> Route, expand: string -> Option<string>, isGrok: string -> bool)

  const GROK_MODEL := "grok-4.5"

  function ExpandGrokAlias(model: string): Option<string>
  {
    if model == "grok-4.5-high" || model == "grok-4.5-xhigh" then Some("high")
    else if model == "grok-4.5-medium" then Some("medium")
    else if model == "grok-4.5-low" then Some("low")
    else if model == "grok-4.5-auto" then Some("auto")
    else if model == "grok-4.5-none" then Some("none")
    else None
  }

  predicate IsGrokModel(model: string) {
    "grok-" <= model
  }

  /** The routing of the program over a given registry. */
  function Standard(resolve: string -> Route): Routing {
    Routing(resolve, ExpandGrokAlias, IsGrokModel)
  }

  /** The effort a candidate asks for: an alias that no custom model overrides. */
  function EffortOf(reg: Routing, candidate: string): Option<string>
  {
    var r := reg.resolve(candidate);
    if r.upstream.Unset? then reg.expand(r.model) else None
  }

  /** The model name put into the body for a candidate. */
  function CandidateModel(reg: Routing, candidate: string): string
  {
    if EffortOf(reg, candidate).Some? then GROK_MODEL else reg.resolve(candidate).model
  }

  /** The body map after the candidate was resolved. */
  function Prepared(reg: Routing, body: Request, candidate: string): Request
  {
    var e := EffortOf(reg, candidate);
    var b := if e.Some? && ReasoningEffort !in body && Reasoning !in body
             then body[ReasoningEffort := Str(e.value)] else body;
    b[Model := Str(CandidateModel(reg, candidate))]
  }

  /** The model name after the dispatch rewrote it for a custom route. */
  function SentModel(reg: Routing, candidate: string): string
  {
    var r := reg.resolve(candidate);
    if r.upstream.Unset? || r.modelName == "" then CandidateModel(reg, candidate)
    else if r.upstream.Grok? then r.modelName
    else "cb/" + r.modelName
  }

  function Sent(reg: Routing, body: Request, candidate: string): Request {
    Prepared(reg, body, candidate)[Model := Str(SentModel(reg, candidate))]
  }

  function UpstreamOf(reg: Routing, candidate: string): Upstream
  {
    var r := reg.resolve(candidate);
    if !r.upstream.Unset? then r.upstream
    else if reg.isGrok(CandidateModel(reg, candidate)) then Grok else CodeBuddy
  }

  // ----- The retry loop -----

  datatype Attempt = Attempt(upstream: Upstream, sent: Request, rec: Recorded)

  /** What the upstreams answer, by attempt. */
  type World = nat -> seq<WriterOp>

  function AttemptOf(reg: Routing, body: Request, candidate: string, ops: seq<WriterOp>): Attempt {
    Attempt(UpstreamOf(reg, candidate), Sent(reg, body, candidate), Record(ops))
  }

  /** The body map after the first `j` attempts: each one rewrites what the one before it left. */
  function BodyAfter(reg: Routing, models: seq<string>, start: Request, j: nat): Request
    requires j <= |models|
  {
    if j == 0 then start else Sent(reg, BodyAfter(reg, models, start, j - 1), models[j - 1])
  }

  function AttemptAt(reg: Routing, models: seq<string>, start: Request, w: World, j: nat): Attempt
    requires j < |models|
  {
    AttemptOf(reg, BodyAfter(reg, models, start, j), models[j], w(j))
  }

  predicate FailedAt(w: World, t: nat) {
    Record(w(t)).status >= 500
  }

  /** How many of the candidates from position i on are tried. */
  function Tries(n: nat, i: nat, w: World): (k: nat)
    requires i <= n
    ensures k <= n - i
    decreases n - i
  {
    if i == n then 0 else if FailedAt(w, i) then 1 + Tries(n, i + 1, w) else 1
  }

  function Firsts(reg: Routing, models: seq<string>, start: Request, w: World, k: nat): (at: seq<Attempt>)
    requires k <= |models|
    ensures |at| == k
  {
    if k == 0 then [] else Firsts(reg, models, start, w, k - 1) + [AttemptAt(reg, models, start, w, k - 1)]
  }

  lemma {:induction false} FirstsAt(reg: Routing, models: seq<string>, start: Request, w: World, k: nat, j: nat)
    requires j < k <= |models|
    ensures Firsts(reg, models, start, w, k)[j] == AttemptAt(reg, models, start, w, j)
  {
    if j < k - 1 {
      FirstsAt(reg, models, start, w, k - 1, j);
    }
  }

  /** The attempts of a request. */
  function Walk(reg: Routing, models: seq<string>, start: Request, w: World): (at: seq<Attempt>)
    ensures |at| == Tries(|models|, 0, w)
  {
    Firsts(reg, models, start, w, Tries(|models|, 0, w))
  }

  /** Before the loop the head of the combo has already been resolved into the body. */
  function Head(reg: Routing, models: seq<string>, client: Request): Request {
    if models == [] then client else Prepared(reg, client, models[0])
  }

  function Answered(r: Response, attempts: seq<Attempt>): Response {
    if attempts == [] then r else Flushed(r, attempts[|attempts| - 1].rec)
  }

  /** One pass of the loop body: resolve, route and run one candidate behind a fresh buffer. */
  method TryCandidate(reg: Routing, body: Request, candidate: string, ops: seq<WriterOp>, target: ResponseWriter)
    returns (a: Attempt, bw: BufferedWriter)
    ensures a == AttemptOf(reg, body, candidate, ops)
    ensures fresh(bw) && bw.target == target && bw.View() == a.rec
  {
    var upstream;
    var sent := Resolve(reg, body, candidate);
    var r := reg.resolve(candidate);
    match r.upstream {
      case Grok =>
        upstream := Grok;
        if r.modelName != "" {
          sent := sent[Model := Str(r.modelName)];
        }
      case CodeBuddy =>
        upstream := CodeBuddy;
        if r.modelName != "" {
          sent := sent[Model := Str("cb/" + r.modelName)];
        }
      case Unset =>
        upstream := if reg.isGrok(CandidateModel(reg, candidate)) then Grok else CodeBuddy;
    }
    bw := new BufferedWriter(target);
    bw.Play(ops);
    a := Attempt(upstream, sent, bw.View());
  }

  method ProxyFallback(reg: Routing, models: seq<string>, client: Request, w: World, target: ResponseWriter)
    returns (attempts: seq<Attempt>)
    modifies target
    ensures attempts == Walk(reg, models, Head(reg, models, client), w)
    ensures target.View() == Answered(old(target.View()), attempts)
    ensures models == [] ==> attempts == [] && target.View() == old(target.View())
    ensures models != [] ==>
              var ops := w(|attempts| - 1);
              && target.body == old(target.body) + BodyBytes(ops)
              && target.statuses == old(target.statuses) + [FirstStatus(ops)]
              && forall k :: Values(target.headers, k) == Values(old(target.headers), k) + HeaderValues(ops, k)
    ensures models != [] ==>
              && 1 <= |attempts| <= |models|
              && (forall t :: 0 <= t < |attempts| - 1 ==> FirstStatus(w(t)) >= 500)
              && (FirstStatus(w(|attempts| - 1)) < 500 || |attempts| == |models|)
  {
    var body := client;
    if |models| > 0 {
      body := Resolve(reg, body, models[0]);
    }
    var last;
    attempts, last := TryAll(reg, models, body, w, target);
    if last != null {
      WalkRoutes(reg, models, body, w, |attempts| - 1);
      RecordMeans(w(|attempts| - 1));
      last.Flush();
    }
    WalkInOrder(reg, models, body, w);
    forall t: nat
      ensures FailedAt(w, t) <==> FirstStatus(w(t)) >= 500
    {
      RecordMeans(w(t));
    }
  }

  lemma AttemptLeaves(reg: Routing, models: seq<string>, start: Request, w: World, j: nat, a: Attempt)
    requires j < |models| && a == AttemptOf(reg, BodyAfter(reg, models, start, j), models[j], w(j))
    ensures a == AttemptAt(reg, models, start, w, j) && a.sent == BodyAfter(reg, models, start, j + 1)
    ensures Firsts(reg, models, start, w, j + 1) == Firsts(reg, models, start, w, j) + [a]
    ensures Tries(|models|, j, w) == if a.rec.status < 500 then 1 else 1 + Tries(|models|, j + 1, w)
  {
  }

  /** The loop: the last buffer is the terminal one. */
  method TryAll(reg: Routing, models: seq<string>, start: Request, w: World, target: ResponseWriter)
    returns (attempts: seq<Attempt>, last: BufferedWriter?)
    ensures attempts == Walk(reg, models, start, w)
    ensures last == null <==> attempts == []
    ensures last != null ==> fresh(last) && last.target == target && last.View() == attempts[|attempts| - 1].rec
  {
    var body := start;
    attempts, last := [], null;
    var i := 0;
    while i < |models|
      invariant 0 <= i <= |models| && body == BodyAfter(reg, models, start, i)
      invariant Tries(|models|, 0, w) == i + Tries(|models|, i, w)
      invariant attempts == Firsts(reg, models, start, w, i)
      invariant last == null <==> i == 0
      invariant last != null ==> fresh(last) && last.target == target && last.View() == attempts[i - 1].rec
    {
      var a;
      a, last := TryCandidate(reg, body, models[i], w(i), target);
      AttemptLeaves(reg, models, start, w, i, a);
      attempts, body := attempts + [a], a.sent;
      i := i + 1;
      if a.rec.status < 500 {
        return;
      }
    }
  }

  method Resolve(reg: Routing, body: Request, candidate: string) returns (b: Request)
    ensures b == Prepared(reg, body, candidate)
  {
    b := body;
    var r := reg.resolve(candidate);
    var candModel := r.model;
    if r.upstream.Unset? {
      var effort := reg.expand(candModel);
      if effort.Some? {
        candModel := GROK_MODEL;
        if ReasoningEffort !in b && Reasoning !in b {
          b := b[ReasoningEffort := Str(effort.value)];
        }
      }
    }
    b := b[Model := Str(candModel)];
  }

  // ----- What the loop guarantees -----

  /** Where attempt j goes and under which model name: a custom route to its upstream, under its own name if it
      has one; an alias to the Grok model; any other name as it is, by its prefix. */
  lemma RoutesSpelledOut(reg: Routing, models: seq<string>, start: Request, w: World, j: nat)
    requires j < |Walk(reg, models, start, w)|
    ensures j < |models|
    ensures var a := Walk(reg, models, start, w)[j]; var r := reg.resolve(models[j]);
            var alias := r.upstream == Unset && reg.expand(r.model).Some?;
            var plain := if alias then "grok-4.5" else r.model;
            && a.upstream == (if r.upstream != Unset then r.upstream else if reg.isGrok(plain) then Grok else CodeBuddy)
            && Model in a.sent
            && a.sent[Model] == Str(if r.upstream == Grok && r.modelName != "" then r.modelName
                                    else if r.upstream == CodeBuddy && r.modelName != "" then "cb/" + r.modelName
                                    else plain)
  {
    WalkRoutes(reg, models, start, w, j);
  }

  /** The program's aliases and its prefix test. */
  lemma AliasTable(model: string)
    ensures model == "grok-4.5-high" || model == "grok-4.5-xhigh" ==> ExpandGrokAlias(model) == Some("high")
    ensures model == "grok-4.5-medium" ==> ExpandGrokAlias(model) == Some("medium")
    ensures model == "grok-4.5-low" ==> ExpandGrokAlias(model) == Some("low")
    ensures model == "grok-4.5-auto" ==> ExpandGrokAlias(model) == Some("auto")
    ensures model == "grok-4.5-none" ==> ExpandGrokAlias(model) == Some("none")
    ensures ExpandGrokAlias(model).Some? ==> model[..|"grok-4.5-"|] == "grok-4.5-" && IsGrokModel(model)
    ensures ExpandGrokAlias(model).Some? <==>
              model in {"grok-4.5-high", "grok-4.5-xhigh", "grok-4.5-medium", "grok-4.5-low", "grok-4.5-auto", "grok-4.5-none"}
    ensures IsGrokModel(model) <==> |model| >= 5 && model[..5] == "grok-"
  {
    if ExpandGrokAlias(model).Some? {
      assert model[..9] == "grok-4.5-";
      assert model[..5] == model[..9][..5] == "grok-";
    }
  }

  /** Attempt j is the one for models[j]. */
  lemma WalkRoutes(reg: Routing, models: seq<string>, start: Request, w: World, j: nat)
    requires j < |Walk(reg, models, start, w)|
    ensures j < |models|
    ensures var a := Walk(reg, models, start, w)[j];
            && a.upstream == UpstreamOf(reg, models[j]) && a.rec == Record(w(j))
            && Model in a.sent && a.sent[Model] == Str(SentModel(reg, models[j]))
  {
    FirstsAt(reg, models, start, w, |Walk(reg, models, start, w)|, j);
  }

  lemma {:induction false} TriesStopAtSuccess(n: nat, i: nat, w: World)
    requires i <= n
    ensures var k := Tries(n, i, w);
            && k <= n - i && (i < n ==> k > 0)
            && (forall t :: i <= t < i + k - 1 ==> FailedAt(w, t))
            && (k > 0 ==> !FailedAt(w, i + k - 1) || k == n - i)
    decreases n - i
  {
    if i < n && FailedAt(w, i) {
      TriesStopAtSuccess(n, i + 1, w);
    }
  }

  /** Candidates are tried in list order, each position at most once, up to the first status below 500:
      every attempt but the last failed with 5xx, and the last one either did not or was the last candidate. */
  lemma WalkInOrder(reg: Routing, models: seq<string>, start: Request, w: World)
    ensures var n := |Walk(reg, models, start, w)|;
            && n <= |models| && (models != [] ==> n > 0)
            && (forall t :: 0 <= t < n - 1 ==> FailedAt(w, t))
            && (n > 0 ==> !FailedAt(w, n - 1) || n == |models|)
  {
    TriesStopAtSuccess(|models|, 0, w);
  }

  /** Exactly one response reaches the client: that of the terminal attempt. */
  lemma OneAnswer(reg: Routing, models: seq<string>, body: Request, w: World, r: Response)
    requires models != []
    ensures var at := Walk(reg, models, body, w); var n := |at|;
            && 0 < n <= |models|
            && Answered(r, at) == Flushed(r, Record(w(n - 1)))
            && Answered(r, at).statuses == r.statuses + [Record(w(n - 1)).status]
            && (!FailedAt(w, n - 1) || n == |models|)
            && (forall t :: 0 <= t < n - 1 ==> FailedAt(w, t))
  {
    WalkInOrder(reg, models, body, w);
    WalkRoutes(reg, models, body, w, |Walk(reg, models, body, w)| - 1);
  }

  /** The first effort requested in a list of candidates. */
  function FirstEffort(reg: Routing, models: seq<string>): Option<string>
  {
    if models == [] then None
    else if EffortOf(reg, models[0]).Some? then EffortOf(reg, models[0])
    else FirstEffort(reg, models[1..])
  }

  /** The `reasoning_effort` a body carries when the candidates `done` have been prepared. */
  function Effort(reg: Routing, client: Request, done: seq<string>): Option<Json>
  {
    if ReasoningEffort in client then Some(client[ReasoningEffort])
    else if Reasoning in client then None
    else match FirstEffort(reg, done) case None => None case Some(e) => Some(Str(e))
  }

  /** `b` is the client's body but for the model name and the effort the candidates `done` ask for. */
  ghost predicate Derived(reg: Routing, client: Request, b: Request, done: seq<string>)
  {
    && (forall k :: k != Model && k != ReasoningEffort ==> (k in b <==> k in client) && (k in b ==> b[k] == client[k]))
    && (ReasoningEffort in b <==> Effort(reg, client, done).Some?)
    && (ReasoningEffort in b ==> b[ReasoningEffort] == Effort(reg, client, done).value)
  }

  lemma {:induction false} FirstEffortSnoc(reg: Routing, done: seq<string>, m: string)
    ensures FirstEffort(reg, done + [m]) == if FirstEffort(reg, done).Some? then FirstEffort(reg, done) else EffortOf(reg, m)
  {
    if done == [] {
      assert [m][1..] == [];
    } else {
      assert (done + [m])[1..] == done[1..] + [m];
      FirstEffortSnoc(reg, done[1..], m);
    }
  }

  lemma SentDerived(reg: Routing, client: Request, b: Request, done: seq<string>, m: string)
    requires Derived(reg, client, b, done)
    ensures Derived(reg, client, Prepared(reg, b, m), done + [m])
    ensures Derived(reg, client, Sent(reg, b, m), done + [m])
  {
    FirstEffortSnoc(reg, done, m);
    assert Reasoning in b <==> Reasoning in client;
  }

  lemma {:induction false} BodyDerived(reg: Routing, models: seq<string>, client: Request, j: nat)
    requires 0 < j <= |models|
    ensures Derived(reg, client, BodyAfter(reg, models, Head(reg, models, client), j), models[..j])
  {
    var start := Head(reg, models, client);
    if j == 1 {
      assert models[..1] == [models[0]];
      HeadTwice(reg, client, models[0]);
      assert BodyAfter(reg, models, start, 1) == Sent(reg, BodyAfter(reg, models, start, 0), models[0]);
    } else {
      BodyDerived(reg, models, client, j - 1);
      SentDerived(reg, client, BodyAfter(reg, models, start, j - 1), models[..j - 1], models[j - 1]);
      assert models[..j - 1] + [models[j - 1]] == models[..j];
    }
  }

  /** The head is prepared twice, before the loop and in it, and asks for one effort. */
  lemma HeadTwice(reg: Routing, client: Request, m: string)
    ensures Derived(reg, client, Sent(reg, Prepared(reg, client, m), m), [m])
  {
    var b := Prepared(reg, client, m);
    assert [] + [m] == [m];
    SentDerived(reg, client, client, [], m);
    SentDerived(reg, client, b, [m], m);
    FirstEffortSnoc(reg, [m], m);
    assert [m][1..] == [];
  }

  /** Every attempt's body is the client's but for `model` and, only if the client sent neither
      `reasoning_effort` nor `reasoning`, `reasoning_effort`, which is then the first effort any
      candidate up to this one asked for. */
  lemma BodiesAreTheClients(reg: Routing, models: seq<string>, client: Request, w: World, j: nat)
    requires j < |Walk(reg, models, Head(reg, models, client), w)|
    ensures j < |models| && Derived(reg, client, Walk(reg, models, Head(reg, models, client), w)[j].sent, models[..j + 1])
  {
    var start := Head(reg, models, client);
    FirstsAt(reg, models, start, w, |Walk(reg, models, start, w)|, j);
    AttemptLeaves(reg, models, start, w, j, AttemptAt(reg, models, start, w, j));
    BodyDerived(reg, models, client, j + 1);
  }

  /** An effort injected for one candidate stays for all later ones. */
  lemma EffortSticks(reg: Routing, models: seq<string>, client: Request, w: World, j: nat)
    requires j < |Walk(reg, models, Head(reg, models, client), w)| && models != []
    requires ReasoningEffort !in client && Reasoning !in client && EffortOf(reg, models[0]).Some?
    ensures var sent := Walk(reg, models, Head(reg, models, client), w)[j].sent;
            ReasoningEffort in sent && sent[ReasoningEffort] == Str(EffortOf(reg, models[0]).value)
  {
    BodiesAreTheClients(reg, models, client, w, j);
    assert models[..j + 1][0] == models[0];
  }

  /** In the program's own alias table: a combo of a low and a high alias sends `low` to both. */
  lemma LaterAliasKeepsFirstEffort(resolve: string -> Route, client: Request, w: World)
    requires ReasoningEffort !in client && Reasoning !in client && FailedAt(w, 0)
    requires forall m :: resolve(m) == Route(m, Unset, "")
    ensures var reg := Standard(resolve); var models := ["grok-4.5-low", "grok-4.5-high"];
            var at := Walk(reg, models, Head(reg, models, client), w);
            && |at| == 2 && at[1].upstream.Grok? && EffortOf(reg, models[1]) == Some("high")
            && ReasoningEffort in at[1].sent && at[1].sent[ReasoningEffort] == Str("low")
  {
    var reg := Standard(resolve);
    var models := ["grok-4.5-low", "grok-4.5-high"];
    WalkInOrder(reg, models, Head(reg, models, client), w);
    assert Tries(2, 0, w) == 1 + Tries(2, 1, w) == 2;
    EffortSticks(reg, models, client, w, 1);
    WalkRoutes(reg, models, Head(reg, models, client), w, 1);
    assert GROK_MODEL[..5] == "grok-";
  }
}
