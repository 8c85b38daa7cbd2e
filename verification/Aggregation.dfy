/** The parallel reduction of verify_aggregate_seal_proof in rust/src/proofs/api.rs. */
module Aggregation {
  import opened Common

  /**
    * How the thread pool happened to split the work: pieces of the input joined in order, with any
    * number of empty identities in between.
    */
  datatype Tree<I> = Empty | Leaf(input: I) | Join(left: Tree<I>, right: Tree<I>)

  function Leaves<I>(t: Tree<I>): seq<I> {
    match t
    case Empty => []
    case Leaf(x) => [x]
    case Join(l, r) => Leaves(l) + Leaves(r)
  }

  /**
    * The possible results of reducing a tree. Of two failures either may be reported, because the
    * pool stops at whichever it meets first.
    */
  ghost predicate ReducesTo<I(!new), R(!new), E(!new)>(
    t: Tree<I>, convert: I -> Result<seq<R>, E>, r: Result<seq<R>, E>
  ) {
    match t
    case Empty => r == Ok([])
    case Leaf(x) => r == convert(x)
    case Join(left, right) =>
      exists a, b :: ReducesTo(left, convert, a) && ReducesTo(right, convert, b) && r in Joined(a, b)
  }

  /** `acc.extend(current)` if there is no error. */
  function Joined<R, E>(a: Result<seq<R>, E>, b: Result<seq<R>, E>): seq<Result<seq<R>, E>> {
    if a.Ok? && b.Ok? then [Ok(a.value + b.value)]
    else (if a.Err? then [a] else []) + (if b.Err? then [b] else [])
  }

  /** In-order concatenation: what a plain loop over the inputs computes. */
  function Sequential<I, R, E>(inputs: seq<I>, convert: I -> Result<seq<R>, E>): Result<seq<R>, E> {
    match Collect(MapSeq(convert, inputs))
    case Ok(rows) => Ok(Concat(rows))
    case Err(e) => Err(e)
  }

  lemma {:induction false} SequentialAppend<I, R, E>(xs: seq<I>, ys: seq<I>, convert: I -> Result<seq<R>, E>)
    ensures Sequential(xs + ys, convert).Ok? <==> Sequential(xs, convert).Ok? && Sequential(ys, convert).Ok?
    ensures Sequential(xs + ys, convert).Ok? ==>
              Sequential(xs + ys, convert).value == Sequential(xs, convert).value + Sequential(ys, convert).value
  {
    hide Collect, MapSeq;
    MapAppend(convert, xs, ys);
    CollectAppend(MapSeq(convert, xs), MapSeq(convert, ys));
    if Sequential(xs + ys, convert).Ok? {
      ConcatAppend(Collect(MapSeq(convert, xs)).value, Collect(MapSeq(convert, ys)).value);
    }
  }

  lemma {:induction false} SequentialOne<I, R, E>(x: I, convert: I -> Result<seq<R>, E>)
    ensures Sequential([x], convert) == convert(x)
  {
    var rs := MapSeq(convert, [x]);
    assert rs == [convert(x)];
    if convert(x).Ok? {
      assert Collect(rs).value == [convert(x).value];
      assert Concat([convert(x).value]) == convert(x).value + Concat<R>([]);
      assert convert(x).value + [] == convert(x).value;
    } else {
      assert rs[0].Err?;
    }
  }

  /**
    * Every split gives the in-order concatenation when all conversions succeed, and otherwise the
    * error of some input whose conversion failed.
    */
  lemma {:induction false} ReduceIsSequential<I(!new), R(!new), E(!new)>(
    t: Tree<I>, convert: I -> Result<seq<R>, E>, r: Result<seq<R>, E>)
    requires ReducesTo(t, convert, r)
    ensures r.Ok? <==> Sequential(Leaves(t), convert).Ok?
    ensures r.Ok? ==> r == Sequential(Leaves(t), convert)
    ensures r.Err? ==> exists x :: x in Leaves(t) && convert(x) == r
  {
    hide Sequential;
    match t
    case Empty =>
      NoInputs(convert);
    case Leaf(x) =>
      SequentialOne(x, convert);
    case Join(left, right) =>
      var a, b :| ReducesTo(left, convert, a) && ReducesTo(right, convert, b) && r in Joined(a, b);
      ReduceIsSequential(left, convert, a);
      ReduceIsSequential(right, convert, b);
      SequentialAppend(Leaves(left), Leaves(right), convert);
  }

  /** However the work was split, it has a result. */
  lemma {:induction false} HasResult<I(!new), R(!new), E(!new)>(t: Tree<I>, convert: I -> Result<seq<R>, E>)
    returns (r: Result<seq<R>, E>)
    ensures ReducesTo(t, convert, r)
  {
    match t
    case Empty =>
      r := Ok([]);
    case Leaf(x) =>
      r := convert(x);
    case Join(left, right) =>
      var a := HasResult(left, convert);
      var b := HasResult(right, convert);
      r := Joined(a, b)[0];
  }

  /** The possible results are the in-order concatenation, or the error of any input that fails. */
  lemma {:induction false} ReduceIff<I(!new), R(!new), E(!new)>(
    t: Tree<I>, convert: I -> Result<seq<R>, E>, r: Result<seq<R>, E>)
    ensures ReducesTo(t, convert, r) <==>
            if r.Ok? then r == Sequential(Leaves(t), convert)
            else exists x :: x in Leaves(t) && convert(x) == r
  {
    hide Sequential;
    if ReducesTo(t, convert, r) {
      ReduceIsSequential(t, convert, r);
    } else if r.Ok? {
      var any := HasResult(t, convert);
      ReduceIsSequential(t, convert, any);
    } else if x :| x in Leaves(t) && convert(x) == r {
      AnyError(t, convert, x);
    }
  }

  lemma {:induction false} AnyError<I(!new), R(!new), E(!new)>(t: Tree<I>, convert: I -> Result<seq<R>, E>, x: I)
    requires x in Leaves(t) && convert(x).Err?
    ensures ReducesTo(t, convert, convert(x))
  {
    if t.Join? {
      if x in Leaves(t.left) {
        AnyError(t.left, convert, x);
        var b := HasResult(t.right, convert);
        assert convert(x) == Joined(convert(x), b)[0];
      } else {
        var a := HasResult(t.left, convert);
        AnyError(t.right, convert, x);
        var both := Joined(a, convert(x));
        assert convert(x) == both[|both| - 1];
      }
    }
  }

  lemma {:induction false} NoInputs<I, R, E>(convert: I -> Result<seq<R>, E>)
    ensures Sequential([], convert) == Ok([])
  {
  }

  /**
    * Alignment: however the work was split, the rows of input `i` sit where the rows of the inputs
    * before it end, so row blocks, commitments and seeds stay in the same order.
    */
  lemma {:induction false} ReduceAligned<I(!new), R(!new), E(!new)>(
    t: Tree<I>, inputs: seq<I>, convert: I -> Result<seq<R>, E>, r: Result<seq<R>, E>, i: nat)
    requires ReducesTo(t, convert, r) && Leaves(t) == inputs && r.Ok? && i < |inputs|
    ensures Collect(MapSeq(convert, inputs)).Ok? && convert(inputs[i]).Ok?
    ensures var rows := Collect(MapSeq(convert, inputs)).value;
            && |rows| == |inputs| && rows[i] == convert(inputs[i]).value && r.value == Concat(rows)
            && 0 <= PrefixSum(Sizes(rows), i) <= PrefixSum(Sizes(rows), i + 1) <= |r.value|
            && r.value[PrefixSum(Sizes(rows), i)..PrefixSum(Sizes(rows), i + 1)] == convert(inputs[i]).value
  {
    ReduceIsSequential(t, convert, r);
    var rs := MapSeq(convert, inputs);
    assert rs[i] == convert(inputs[i]) && rs[i].Ok?;
    hide ReducesTo, MapSeq, Collect, Concat;
    ConcatAt(Collect(rs).value, i);
  }
}
