/**
  * What the trace builder accepts, how much it reads, and what the trace it builds contains.
  * Three independent descriptions of the builder's input language are related here: the printed
  * forms of call trees, a scan that keeps only a nesting depth, and a counting condition on prefixes.
  */
module TraceTheorems {
  import opened Common
  import opened Trace

  // ---------------------------------------------------------------- call trees and their printer

  datatype CallTree = CallTree(call: SendParams, children: seq<CallTree>, result: CallResult)

  function Print(t: CallTree): seq<Event>
    decreases t, 1
  {
    [Call(t.call)] + PrintAll(t.children) + [Return(t.result)]
  }

  function PrintAll(ts: seq<CallTree>): seq<Event>
    decreases ts, 0
  {
    if ts == [] then [] else Print(ts[0]) + PrintAll(ts[1..])
  }

  /** No call in the tree came back as a failure whose code says success. */
  predicate Clean(t: CallTree)
    decreases t, 1
  {
    t.result != Failed(0) && CleanAll(t.children)
  }

  predicate CleanAll(ts: seq<CallTree>)
    decreases ts, 0
  {
    ts == [] || (Clean(ts[0]) && CleanAll(ts[1..]))
  }

  /** The trace that stands for a call tree. */
  function Translate(t: CallTree): LotusTrace
    requires Clean(t)
    decreases t, 1
  {
    LotusTrace(MessageOf(t.call), ReceiptOf(t.result).value, "", TranslateAll(t.children))
  }

  function TranslateAll(ts: seq<CallTree>): seq<LotusTrace>
    requires CleanAll(ts)
    decreases ts, 0
  {
    if ts == [] then [] else [Translate(ts[0])] + TranslateAll(ts[1..])
  }

  // ---------------------------------------------------------------- parsing inverts printing

  /** Parsing a printed tree yields its translation and stops exactly at the end of the tree. */
  lemma {:induction false} ParseInvertsPrint(t: CallTree, suffix: seq<Event>)
    requires Clean(t)
    ensures ParseCall(Call(t.call), Print(t)[1..] + suffix) == Parsed(Ok(Translate(t)), suffix)
    decreases t, 1
  {
    var tail := [Return(t.result)] + suffix;
    assert Print(t)[1..] + suffix == PrintAll(t.children) + tail;
    BodyInvertsPrint(Opened(t.call), t.children, tail);
    assert tail[1..] == suffix;
    assert [] + TranslateAll(t.children) == TranslateAll(t.children);
  }

  lemma {:induction false} BodyInvertsPrint(trace: LotusTrace, ts: seq<CallTree>, suffix: seq<Event>)
    requires CleanAll(ts)
    ensures ParseBody(trace, PrintAll(ts) + suffix)
         == ParseBody(trace.(subcalls := trace.subcalls + TranslateAll(ts)), suffix)
    decreases ts, 0
  {
    hide Print, Translate;
    if ts == [] {
      assert PrintAll(ts) + suffix == suffix;
      assert trace.subcalls + TranslateAll(ts) == trace.subcalls;
    } else {
      var more := PrintAll(ts[1..]) + suffix;
      var sub := Translate(ts[0]);
      AppendAssoc(Print(ts[0]), PrintAll(ts[1..]), suffix);
      PrintStart(ts[0], more);
      ParseInvertsPrint(ts[0], more);
      BodyInvertsPrint(trace.(subcalls := trace.subcalls + [sub]), ts[1..], suffix);
      AppendAssoc(trace.subcalls, [sub], TranslateAll(ts[1..]));
    }
  }

  lemma {:induction false} PrintStart(t: CallTree, more: seq<Event>)
    ensures var events := Print(t) + more;
            Print(t) != [] && events != [] && events[0] == Call(t.call) && events[1..] == Print(t)[1..] + more
  {
  }

  /** Whatever is accepted is a printed tree, and the result is that tree's translation. */
  lemma {:induction false} ParseSound(call: Event, rest: seq<Event>) returns (t: CallTree)
    requires ParseCall(call, rest).result.Ok?
    ensures Clean(t)
    ensures Print(t) + ParseCall(call, rest).rest == [call] + rest
    ensures Translate(t) == ParseCall(call, rest).result.value
    decreases |rest|, 1
  {
    var ts, res := BodySound(Opened(call.params), rest);
    t := CallTree(call.params, ts, res);
    assert [] + TranslateAll(ts) == TranslateAll(ts);
  }

  lemma {:induction false} BodySound(trace: LotusTrace, rest: seq<Event>) returns (ts: seq<CallTree>, res: CallResult)
    requires ParseBody(trace, rest).result.Ok?
    ensures CleanAll(ts) && ReceiptOf(res).Ok?
    ensures PrintAll(ts) + [Return(res)] + ParseBody(trace, rest).rest == rest
    ensures ParseBody(trace, rest).result.value
         == trace.(receipt := ReceiptOf(res).value, subcalls := trace.subcalls + TranslateAll(ts))
    decreases |rest|, 0
  {
    if rest[0].Return? {
      ts, res := [], rest[0].result;
      assert trace.subcalls + [] == trace.subcalls;
    } else {
      var sub := ParseCall(rest[0], rest[1..]);
      var t := ParseSound(rest[0], rest[1..]);
      var trace' := trace.(subcalls := trace.subcalls + [sub.result.value]);
      var ts', res' := BodySound(trace', sub.rest);
      ts, res := [t] + ts', res';
      assert ts[1..] == ts';
      assert [rest[0]] + rest[1..] == rest;
      hide Print, Translate, ReceiptOf, ParseCall;
      var tail := [Return(res)] + ParseBody(trace', sub.rest).rest;
      AppendAssoc(Print(t), PrintAll(ts'), tail);
      AppendAssoc(PrintAll(ts), [Return(res)], ParseBody(trace', sub.rest).rest);
      AppendAssoc(PrintAll(ts'), [Return(res)], ParseBody(trace', sub.rest).rest);
      AppendAssoc(trace.subcalls, [Translate(t)], TranslateAll(ts'));
    }
  }

  /** The accepted inputs are exactly the printed clean trees, each followed by anything. */
  lemma {:induction false} AcceptsPrintedTrees(call: Event, rest: seq<Event>)
    ensures ParseCall(call, rest).result.Ok?
       <==> exists t, suffix :: Clean(t) && Print(t) + suffix == [call] + rest
  {
    if ParseCall(call, rest).result.Ok? {
      var t := ParseSound(call, rest);
    }
    forall t, suffix | Clean(t) && Print(t) + suffix == [call] + rest
      ensures ParseCall(call, rest).result.Ok?
    {
      ParseInvertsPrint(t, suffix);
      assert call == (Print(t) + suffix)[0] == Call(t.call);
      assert rest == (Print(t) + suffix)[1..] == Print(t)[1..] + suffix;
    }
  }

  // ---------------------------------------------------------------- a scan that only counts

  datatype Verdict = Done(rest: seq<Event>) | Fail(error: TraceError, rest: seq<Event>)

  /** Reads until `depth` open calls are closed, building nothing. */
  function Scan(depth: nat, s: seq<Event>): Verdict
    decreases |s|
  {
    if depth == 0 then Done(s)
    else if s == [] then Fail(MissingReturn, [])
    else match s[0]
      case Call(_) => Scan(depth + 1, s[1..])
      case Return(res) =>
        if res != Failed(0) then Scan(depth - 1, s[1..]) else Fail(ActorFailedWithOk, s[1..])
      case Other(_) => Fail(ExpectedCall, s[1..])
  }

  /** The recursive builder succeeds, fails and stops reading exactly as the scan does. */
  lemma {:induction false} ParseMatchesScan(trace: LotusTrace, s: seq<Event>, depth: nat)
    ensures var p := ParseBody(trace, s);
            Scan(depth + 1, s) == if p.result.Ok? then Scan(depth, p.rest) else Fail(p.result.error, p.rest)
    decreases |s|
  {
    if s != [] && s[0].Call? {
      var open := Opened(s[0].params);
      ParseMatchesScan(open, s[1..], depth + 1);
      var sub := ParseBody(open, s[1..]);
      if sub.result.Ok? {
        ParseMatchesScan(trace.(subcalls := trace.subcalls + [sub.result.value]), sub.rest, depth);
      }
    }
  }

  lemma {:induction false} BuilderMatchesScan(p: SendParams, rest: seq<Event>)
    ensures var r := ParseCall(Call(p), rest);
            Scan(1, rest) == if r.result.Ok? then Done(r.rest) else Fail(r.result.error, r.rest)
  {
    ParseMatchesScan(Opened(p), rest, 0);
  }

  // ---------------------------------------------------------------- a counting condition

  /** Calls minus returns. */
  function Balance(s: seq<Event>): int {
    if s == [] then 0
    else (if s[0].Call? then 1 else if s[0].Return? then -1 else 0) + Balance(s[1..])
  }

  predicate Good(e: Event) {
    e.Call? || (e.Return? && e.result != Failed(0))
  }

  /** `n` is the length of the shortest non-empty prefix of `s` that closes `depth` calls; it is good. */
  ghost predicate ClosesAt(depth: nat, s: seq<Event>, n: nat) {
    && 0 < n <= |s|
    && depth + Balance(s[..n]) == 0
    && (forall m: nat | 0 < m < n :: depth + Balance(s[..m]) != 0)
    && (forall i: nat | i < n :: Good(s[i]))
  }

  lemma {:induction false} ScanCloses(depth: nat, s: seq<Event>, n: nat)
    requires 0 < n <= |s| && 0 < depth
    ensures Scan(depth, s) == Done(s[n..]) <==> ClosesAt(depth, s, n)
    decreases |s|
  {
    if Good(s[0]) {
      var depth' := if s[0].Call? then depth + 1 else depth - 1;
      assert s[n..] == s[1..][n - 1..];
      StepCloses(depth, s, n);
      ScanShrinks(depth', s[1..]);
      if depth' > 0 && n > 1 {
        ScanCloses(depth', s[1..], n - 1);
      }
    }
  }

  /** Reading a good event changes the depth by one and shortens the closing prefix by one. */
  lemma {:induction false} StepCloses(depth: nat, s: seq<Event>, n: nat)
    requires 0 < n <= |s| && Good(s[0]) && (s[0].Call? || 0 < depth)
    ensures var depth' := if s[0].Call? then depth + 1 else depth - 1;
            ClosesAt(depth, s, n) <==> if depth' == 0 then n == 1 else n > 1 && ClosesAt(depth', s[1..], n - 1)
  {
    var depth' := if s[0].Call? then depth + 1 else depth - 1;
    var t := s[1..];
    forall m: nat | m < n ensures depth' + Balance(t[..m]) == depth + Balance(s[..m + 1]) {
      assert s[..m + 1][1..] == t[..m];
    }
    assert t[..0] == [];
    if ClosesAt(depth, s, n) {
      assert n > 1 ==> depth + Balance(s[..1]) != 0;
      forall m: nat | 0 < m < n - 1 ensures depth' + Balance(t[..m]) != 0 {
        assert depth + Balance(s[..m + 1]) != 0;
      }
    }
    if n > 1 && ClosesAt(depth', t, n - 1) && depth' != 0 {
      forall m: nat | 0 < m < n ensures depth + Balance(s[..m]) != 0 {
        assert depth' + Balance(t[..m - 1]) == depth + Balance(s[..(m - 1) + 1]);
      }
      forall i: nat | i < n ensures Good(s[i]) {
        if i > 0 { assert s[i] == t[i - 1]; }
      }
    }
  }

  /** An accepting scan of open calls reads at least one event. */
  lemma {:induction false} ScanShrinks(depth: nat, s: seq<Event>)
    ensures Scan(depth, s).Done? ==> |Scan(depth, s).rest| <= |s| && (depth > 0 ==> |Scan(depth, s).rest| < |s|)
    ensures Scan(depth, s).Done? ==> Scan(depth, s).rest == s[|s| - |Scan(depth, s).rest|..]
    decreases |s|
  {
    if depth > 0 && s != [] && Good(s[0]) {
      var depth' := if s[0].Call? then depth + 1 else depth - 1;
      ScanShrinks(depth', s[1..]);
    }
  }

  // ---------------------------------------------------------------- what the trace contains

  /** The messages of a trace, each before those of its subcalls. */
  function Preorder(t: LotusTrace): seq<Message>
    decreases t, 1
  {
    [t.msg] + PreorderAll(t.subcalls)
  }

  function PreorderAll(ts: seq<LotusTrace>): seq<Message>
    decreases ts, 0
  {
    if ts == [] then [] else Preorder(ts[0]) + PreorderAll(ts[1..])
  }

  /** The receipts of a trace, each after those of its subcalls. */
  function Postorder(t: LotusTrace): seq<Receipt>
    decreases t, 1
  {
    PostorderAll(t.subcalls) + [t.receipt]
  }

  function PostorderAll(ts: seq<LotusTrace>): seq<Receipt>
    decreases ts, 0
  {
    if ts == [] then [] else Postorder(ts[0]) + PostorderAll(ts[1..])
  }

  function CallsIn(s: seq<Event>): seq<SendParams> {
    if s == [] then [] else (if s[0].Call? then [s[0].params] else []) + CallsIn(s[1..])
  }

  function ReturnsIn(s: seq<Event>): seq<CallResult> {
    if s == [] then [] else (if s[0].Return? then [s[0].result] else []) + ReturnsIn(s[1..])
  }

  lemma {:induction false} CallsAppend(s: seq<Event>, t: seq<Event>)
    ensures CallsIn(s + t) == CallsIn(s) + CallsIn(t)
  {
    if s == [] {
      assert s + t == t;
    } else {
      CallsAppend(s[1..], t);
      assert (s + t)[0] == s[0] && (s + t)[1..] == s[1..] + t;
      AppendAssoc(if s[0].Call? then [s[0].params] else [], CallsIn(s[1..]), CallsIn(t));
    }
  }

  lemma {:induction false} ReturnsAppend(s: seq<Event>, t: seq<Event>)
    ensures ReturnsIn(s + t) == ReturnsIn(s) + ReturnsIn(t)
  {
    if s == [] {
      assert s + t == t;
    } else {
      ReturnsAppend(s[1..], t);
      assert (s + t)[0] == s[0] && (s + t)[1..] == s[1..] + t;
      AppendAssoc(if s[0].Return? then [s[0].result] else [], ReturnsIn(s[1..]), ReturnsIn(t));
    }
  }

  lemma {:induction false} FilterAppend(s: seq<Event>, t: seq<Event>)
    ensures CallsIn(s + t) == CallsIn(s) + CallsIn(t)
    ensures ReturnsIn(s + t) == ReturnsIn(s) + ReturnsIn(t)
  {
    CallsAppend(s, t);
    ReturnsAppend(s, t);
  }

  /** A message with the call's parameters and nothing else set. */
  predicate Describes(m: Message, p: SendParams) {
    && m.from == Id(p.from) && m.to == p.to && m.value == p.value && m.methodNum == p.method_ && m.params == p.params
    && m.version == 0 && m.sequence == 0 && m.gasLimit == 0 && m.gasFeeCap == 0 && m.gasPremium == 0
  }

  ghost predicate MessagesOf(msgs: seq<Message>, calls: seq<SendParams>) {
    |msgs| == |calls| && forall i | 0 <= i < |msgs| :: Describes(msgs[i], calls[i])
  }

  /**
    * OK exactly for a normal return, and data only from one; a failure keeps its code; a refused call
    * gets one of three codes, two of which stand for a single error each.
    */
  predicate Reports(r: Receipt, res: CallResult) {
    && r.gasUsed == 0
    && (r.exitCode == 0 <==> res.Returned?)
    && r.returnData == (if res.Returned? then res.data else [])
    && (res.Failed? ==> r.exitCode == res.code)
    && (res.Refused? ==>
          r.exitCode == match res.errno
                        case InsufficientFunds => 6
                        case NotFound => 5
                        case _ => 10)
  }

  ghost predicate ReceiptsOf(receipts: seq<Receipt>, results: seq<CallResult>) {
    |receipts| == |results| && forall i | 0 <= i < |receipts| :: Reports(receipts[i], results[i])
  }

  lemma {:induction false} ContentsAppend(
    ms: seq<Message>, ms': seq<Message>, cs: seq<SendParams>, cs': seq<SendParams>,
    rs: seq<Receipt>, rs': seq<Receipt>, qs: seq<CallResult>, qs': seq<CallResult>
  )
    requires MessagesOf(ms, cs) && MessagesOf(ms', cs') && ReceiptsOf(rs, qs) && ReceiptsOf(rs', qs')
    ensures MessagesOf(ms + ms', cs + cs') && ReceiptsOf(rs + rs', qs + qs')
  {
    hide Describes, Reports;
  }

  lemma {:induction false} TreeContents(t: CallTree)
    requires Clean(t)
    ensures MessagesOf(Preorder(Translate(t)), CallsIn(Print(t)))
    ensures ReceiptsOf(Postorder(Translate(t)), ReturnsIn(Print(t)))
    decreases t, 1
  {
    hide Describes, Reports;
    TreesContents(t.children);
    var call, ret, trace := [Call(t.call)], [Return(t.result)], Translate(t);
    FilterAppend(call + PrintAll(t.children), ret);
    FilterAppend(call, PrintAll(t.children));
    SingleContents(t.call, t.result);
    hide MessagesOf, ReceiptsOf, MessageOf, ReceiptOf, CallsIn, ReturnsIn;
    var mid, mid' := PreorderAll(trace.subcalls), PostorderAll(trace.subcalls);
    var calls, results := CallsIn(PrintAll(t.children)), ReturnsIn(PrintAll(t.children));
    ContentsAppend([trace.msg], mid, [t.call], calls, mid', [trace.receipt], results, [t.result]);
    assert CallsIn(Print(t)) == [t.call] + calls;
    assert ReturnsIn(Print(t)) == results + [t.result];
  }

  lemma {:induction false} SingleContents(p: SendParams, res: CallResult)
    ensures CallsIn([Call(p)]) == [p] && CallsIn([Return(res)]) == []
    ensures ReturnsIn([Call(p)]) == [] && ReturnsIn([Return(res)]) == [res]
    ensures MessagesOf([MessageOf(p)], [p])
    ensures ReceiptOf(res).Ok? ==> ReceiptsOf([ReceiptOf(res).value], [res])
  {
    assert [Call(p)][1..] == [] && [Return(res)][1..] == [];
  }

  lemma {:induction false} TreesContents(ts: seq<CallTree>)
    requires CleanAll(ts)
    ensures MessagesOf(PreorderAll(TranslateAll(ts)), CallsIn(PrintAll(ts)))
    ensures ReceiptsOf(PostorderAll(TranslateAll(ts)), ReturnsIn(PrintAll(ts)))
    decreases ts, 0
  {
    if ts != [] {
      TreeContents(ts[0]);
      TreesContents(ts[1..]);
      FilterAppend(Print(ts[0]), PrintAll(ts[1..]));
      var first, rest := Translate(ts[0]), TranslateAll(ts[1..]);
      assert TranslateAll(ts)[0] == first && TranslateAll(ts)[1..] == rest;
      hide MessagesOf, ReceiptsOf, Print, Preorder, Postorder, Translate, CallsIn, ReturnsIn;
      ContentsAppend(Preorder(first), PreorderAll(rest), CallsIn(Print(ts[0])), CallsIn(PrintAll(ts[1..])),
                     Postorder(first), PostorderAll(rest), ReturnsIn(Print(ts[0])), ReturnsIn(PrintAll(ts[1..])));
    }
  }

  // ---------------------------------------------------------------- main results

  /**
    * A trace is reported if and only if the events begin with a call and have a shortest non-empty
    * prefix with as many returns as calls, made of calls and sound returns only.
    */
  lemma {:induction false} ExecTraceIff(events: seq<Event>)
    ensures ExecTrace(events).Some?
       <==> events != [] && events[0].Call? && exists n: nat :: ClosesAt(0, events, n)
  {
    if events != [] && events[0].Call? {
      var rest := events[1..];
      BuilderMatchesScan(events[0].params, rest);
      ScanShrinks(1, rest);
      if Scan(1, rest).Done? {
        var n := |rest| - |Scan(1, rest).rest|;
        ScanCloses(1, rest, n);
        StepCloses(0, events, n + 1);
      }
      forall n: nat | ClosesAt(0, events, n) ensures Scan(1, rest).Done? {
        StepCloses(0, events, n);
        ScanCloses(1, rest, n - 1);
      }
    }
  }

  /** From the events of a call tree, whatever follows, the tree's trace is built. */
  lemma {:induction false} ExecTraceOfPrint(t: CallTree, suffix: seq<Event>)
    requires Clean(t)
    ensures ExecTrace(Print(t) + suffix) == Some(Translate(t))
  {
    PrintStart(t, suffix);
    ParseInvertsPrint(t, suffix);
  }

  /**
    * The trace holds all of the consumed prefix and nothing else: its messages in preorder are the
    * consumed calls in order, its receipts in postorder are the consumed returns in order.
    */
  lemma {:induction false} ExecTraceContents(events: seq<Event>) returns (n: nat)
    requires ExecTrace(events).Some?
    ensures ClosesAt(0, events, n)
    ensures ParseCall(events[0], events[1..]).rest == events[n..]
    ensures MessagesOf(Preorder(ExecTrace(events).value), CallsIn(events[..n]))
    ensures ReceiptsOf(Postorder(ExecTrace(events).value), ReturnsIn(events[..n]))
  {
    var t := ParseSound(events[0], events[1..]);
    var rest := ParseCall(events[0], events[1..]).rest;
    assert events == Print(t) + rest by { assert [events[0]] + events[1..] == events; }
    n := |Print(t)|;
    assert events[..n] == Print(t) && events[n..] == rest;
    TreeContents(t);
    BuilderMatchesScan(events[0].params, events[1..]);
    assert events[1..][n - 1..] == events[n..];
    ScanCloses(1, events[1..], n - 1);
    StepCloses(0, events, n);
  }

  // ---------------------------------------------------------------- unique decoding

  /** What is left of a printed tree's events once its call is read: its subcalls, its return, the rest. */
  function Body(ts: seq<CallTree>, res: CallResult, suffix: seq<Event>): seq<Event> {
    PrintAll(ts) + ([Return(res)] + suffix)
  }

  lemma {:induction false} PrintBody(t: CallTree, suffix: seq<Event>)
    ensures Print(t) + suffix == [Call(t.call)] + Body(t.children, t.result, suffix)
  {
  }

  lemma {:induction false} BodyStart(ts: seq<CallTree>, res: CallResult, suffix: seq<Event>)
    ensures ts == [] ==> Body(ts, res, suffix) == [Return(res)] + suffix
    ensures ts != [] ==> Body(ts, res, suffix) == Print(ts[0]) + Body(ts[1..], res, suffix)
    ensures var body := Body(ts, res, suffix); body != [] && (body[0].Call? <==> ts != [])
  {
    if ts == [] {
      assert Body(ts, res, suffix) == [Return(res)] + suffix;
    } else {
      AppendAssoc(Print(ts[0]), PrintAll(ts[1..]), [Return(res)] + suffix);
      PrintStart(ts[0], Body(ts[1..], res, suffix));
    }
  }

  /** Printing is uniquely decodable: no two trees, clean or not, share a stream. */
  lemma {:induction false} PrintUnique(t: CallTree, suffix: seq<Event>, t': CallTree, suffix': seq<Event>)
    requires Print(t) + suffix == Print(t') + suffix'
    ensures t == t' && suffix == suffix'
    decreases t, 1
  {
    PrintBody(t, suffix);
    PrintBody(t', suffix');
    SameTail(Call(t.call), Body(t.children, t.result, suffix), Call(t'.call), Body(t'.children, t'.result, suffix'));
    BodyUnique(t.children, t.result, suffix, t'.children, t'.result, suffix');
  }

  lemma {:induction false} SameTail(e: Event, s: seq<Event>, e': Event, s': seq<Event>)
    requires [e] + s == [e'] + s'
    ensures e == e' && s == s'
  {
    assert ([e] + s)[0] == e && ([e'] + s')[0] == e';
    assert ([e] + s)[1..] == s && ([e'] + s')[1..] == s';
  }

  lemma {:induction false} BodyUnique(ts: seq<CallTree>, res: CallResult, suffix: seq<Event>,
                                      ts': seq<CallTree>, res': CallResult, suffix': seq<Event>)
    requires Body(ts, res, suffix) == Body(ts', res', suffix')
    ensures ts == ts' && res == res' && suffix == suffix'
    decreases ts, 0
  {
    BodyStart(ts, res, suffix);
    BodyStart(ts', res', suffix');
    hide Body, Print;
    if ts == [] {
      SameTail(Return(res), suffix, Return(res'), suffix');
    } else {
      PrintUnique(ts[0], Body(ts[1..], res, suffix), ts'[0], Body(ts'[1..], res', suffix'));
      BodyUnique(ts[1..], res, suffix, ts'[1..], res', suffix');
      assert ts == [ts[0]] + ts[1..] && ts' == [ts'[0]] + ts'[1..];
    }
  }
}
