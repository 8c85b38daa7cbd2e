/** The execution-trace builder of rust/src/fvm/machine.rs. */
module Trace {
  import opened Common

  // ---------------------------------------------------------------- data model

  datatype Address = Id(id: nat) | Keyed(protocol: byte, payload: Bytes)

  datatype SendParams = SendParams(from: nat, to: Address, method_: nat, params: Bytes, value: int)

  datatype Message = Message(version: int, from: Address, to: Address, sequence: nat, value: int,
                             methodNum: nat, params: Bytes, gasLimit: int, gasFeeCap: int, gasPremium: int)

  datatype ErrorNumber =
    | IllegalArgument | IllegalOperation | LimitExceeded | AssertionFailed | InsufficientFunds
    | NotFound | InvalidHandle | IllegalCid | IllegalCodec | Serialization | Forbidden

  type ExitCode = x: int | 0 <= x < TWO_32
  // Values of the `fvm_shared` exit codes.
  const OK: ExitCode := 0
  const SYS_INVALID_RECEIVER: ExitCode := 5
  const SYS_INSUFFICIENT_FUNDS: ExitCode := 6
  const SYS_ASSERTION_FAILED: ExitCode := 10

  /** What a call came back with: the `Ok` results of an invocation, or a syscall error. */
  datatype CallResult =
    | Returned(data: Bytes)
    | Failed(code: ExitCode)
    | Refused(message: string, errno: ErrorNumber)

  /** `Other` stands for every event that is neither a call nor a return. */
  datatype Event = Call(params: SendParams) | Return(result: CallResult) | Other(tag: nat)

  datatype Receipt = Receipt(exitCode: ExitCode, returnData: Bytes, gasUsed: int)

  datatype LotusTrace = LotusTrace(msg: Message, receipt: Receipt, error: string, subcalls: seq<LotusTrace>)

  datatype TraceError = ExpectedCall | ActorFailedWithOk | MissingReturn

  // ---------------------------------------------------------------- the builder

  function MessageOf(p: SendParams): Message {
    Message(0, Id(p.from), p.to, 0, p.value, p.method_, p.params, 0, 0, 0)
  }

  function ExitCodeOf(errno: ErrorNumber): (code: ExitCode)
    ensures code == 6 <==> errno == InsufficientFunds
    ensures code == 5 <==> errno == NotFound
    ensures code in {5, 6, 10}
  {
    match errno
    case InsufficientFunds => SYS_INSUFFICIENT_FUNDS
    case NotFound => SYS_INVALID_RECEIVER
    case _ => SYS_ASSERTION_FAILED
  }

  function ReceiptOf(res: CallResult): Result<Receipt, TraceError> {
    match res
    case Returned(data) => Ok(Receipt(OK, data, 0))
    case Failed(code) => if code == OK then Err(ActorFailedWithOk) else Ok(Receipt(code, [], 0))
    case Refused(_, errno) => Ok(Receipt(ExitCodeOf(errno), [], 0))
  }

  /** The trace of a call that has not returned yet. */
  function Opened(p: SendParams): LotusTrace {
    LotusTrace(MessageOf(p), Receipt(OK, [], 0), "", [])
  }

  /** The outcome of a parse, with the events it left unread. */
  datatype Parsed = Parsed(result: Result<LotusTrace, TraceError>, rest: seq<Event>)

  function ParseCall(call: Event, rest: seq<Event>): (p: Parsed)
    ensures |p.rest| <= |rest|
    decreases |rest|, 1
  {
    if call.Call? then ParseBody(Opened(call.params), rest) else Parsed(Err(ExpectedCall), rest)
  }

  function ParseBody(trace: LotusTrace, rest: seq<Event>): (p: Parsed)
    ensures |p.rest| <= |rest|
    decreases |rest|, 0
  {
    if rest == [] then
      Parsed(Err(MissingReturn), [])
    else if rest[0].Return? then
      match ReceiptOf(rest[0].result)
      case Ok(receipt) => Parsed(Ok(trace.(receipt := receipt)), rest[1..])
      case Err(e) => Parsed(Err(e), rest[1..])
    else
      var sub := ParseCall(rest[0], rest[1..]);
      if sub.result.Err? then sub
      else ParseBody(trace.(subcalls := trace.subcalls + [sub.result.value]), sub.rest)
  }

  /** An iterator that every level of the recursion advances. */
  class EventIter {
    var rest: seq<Event>

    constructor (events: seq<Event>)
      ensures rest == events
    {
      rest := events;
    }

    method Next() returns (e: Option<Event>)
      modifies this
      ensures e == if old(rest) == [] then None else Some(old(rest)[0])
      ensures rest == if old(rest) == [] then [] else old(rest)[1..]
    {
      if rest == [] {
        e := None;
      } else {
        e := Some(rest[0]);
        rest := rest[1..];
      }
    }
  }

  method BuildLotusTrace(newCall: Event, iter: EventIter) returns (r: Result<LotusTrace, TraceError>)
    modifies iter
    ensures Parsed(r, iter.rest) == ParseCall(newCall, old(iter.rest))
    decreases |iter.rest|
  {
    if !newCall.Call? {
      return Err(ExpectedCall);
    }
    var newTrace := Opened(newCall.params);
    var next := iter.Next();
    while next.Some?
      invariant |iter.rest| + (if next.Some? then 1 else 0) <= |old(iter.rest)|
      invariant next.None? ==> iter.rest == []
      invariant ParseBody(newTrace, (if next.Some? then [next.value] else []) + iter.rest)
             == ParseCall(newCall, old(iter.rest))
      decreases |iter.rest|, next.Some?
    {
      assert ([next.value] + iter.rest)[1..] == iter.rest;
      if next.value.Return? {
        var receipt := ReceiptOf(next.value.result);
        if receipt.Err? {
          return Err(receipt.error);
        }
        return Ok(newTrace.(receipt := receipt.value));
      }
      var sub := BuildLotusTrace(next.value, iter);
      if sub.Err? {
        return sub;
      }
      newTrace := newTrace.(subcalls := newTrace.subcalls + [sub.value]);
      ghost var left := iter.rest;
      next := iter.Next();
      assert (if next.Some? then [next.value] else []) + iter.rest == left;
    }
    return Err(MissingReturn);
  }

  /** The trace of a message: built from its first event; a failed build gives none. */
  function ExecTrace(events: seq<Event>): Option<LotusTrace> {
    if events == [] then None
    else
      var p := ParseCall(events[0], events[1..]);
      if p.result.Ok? then Some(p.result.value) else None
  }

  /** `toVec` is the encoder; a trace that it cannot encode is not reported either. */
  method ReportTrace(events: seq<Event>, toVec: LotusTrace -> Option<Bytes>) returns (bytes: Option<Bytes>)
    ensures bytes == match ExecTrace(events)
                     case None => None
                     case Some(trace) => toVec(trace)
  {
    if events == [] {
      return None;
    }
    var iter := new EventIter(events);
    var first := iter.Next();
    var r := BuildLotusTrace(first.value, iter);
    return if r.Ok? then toVec(r.value) else None;
  }
}
