/** Types and sequence facts shared by the other modules. */
module Common {

  type byte = x: int | 0 <= x < 256
  type Bytes = seq<byte>

  datatype Option<+T> = None | Some(value: T)
  datatype Result<+T, +E> = Ok(value: T) | Err(error: E)

  const TWO_30: nat := 0x4000_0000
  const TWO_31: nat := 0x8000_0000
  const TWO_32: nat := 0x1_0000_0000
  const TWO_63: nat := 0x8000_0000_0000_0000
  const TWO_64: nat := 0x1_0000_0000_0000_0000

  type u64 = x: int | 0 <= x < TWO_64

  /** The sequences of `xss`, one after the other. */
  function Concat<T>(xss: seq<seq<T>>): (r: seq<T>) {
    if xss == [] then [] else xss[0] + Concat(xss[1..])
  }

  lemma {:induction false} AppendAssoc<T>(a: seq<T>, b: seq<T>, c: seq<T>)
    ensures (a + b) + c == a + (b + c)
  {
  }

  lemma {:induction false} ConcatAppend<T>(xss: seq<seq<T>>, yss: seq<seq<T>>)
    ensures Concat(xss + yss) == Concat(xss) + Concat(yss)
  {
    var zss := xss + yss;
    if xss == [] {
      assert zss == yss;
    } else {
      ConcatAppend(xss[1..], yss);
      assert zss[0] == xss[0];
      assert zss[1..] == xss[1..] + yss;
      AppendAssoc(xss[0], Concat(xss[1..]), Concat(yss));
    }
  }

  lemma {:induction false} SliceShift<T>(s: seq<T>, n: nat, lo: nat, hi: nat)
    requires lo <= hi && n + hi <= |s|
    ensures s[n..][lo..hi] == s[n + lo..n + hi]
  {
  }

  lemma {:induction false} SplitLast<T>(s: seq<T>)
    requires s != []
    ensures s == s[..|s| - 1] + [s[|s| - 1]]
  {
  }

  lemma {:induction false} ConcatSnoc<T>(xss: seq<seq<T>>, xs: seq<T>)
    ensures Concat(xss + [xs]) == Concat(xss) + xs
  {
    ConcatAppend(xss, [xs]);
    assert Concat([xs]) == xs + Concat<T>([]);
  }

  lemma {:induction false} ConcatLast<T>(xss: seq<seq<T>>)
    requires xss != []
    ensures Concat(xss) == Concat(xss[..|xss| - 1]) + xss[|xss| - 1]
  {
    SplitLast(xss);
    ConcatSnoc(xss[..|xss| - 1], xss[|xss| - 1]);
  }

  lemma {:induction false} TakeDrop<T>(s: seq<T>, n: nat)
    requires n <= |s|
    ensures s[..n] + s[n..] == s
  {
  }

  /** All the values in order, or the first error. */
  function Collect<T, E>(rs: seq<Result<T, E>>): (r: Result<seq<T>, E>)
    ensures r.Ok? <==> forall i | 0 <= i < |rs| :: rs[i].Ok?
    ensures r.Ok? ==> |r.value| == |rs| && forall i | 0 <= i < |rs| :: r.value[i] == rs[i].value
    ensures r.Err? ==> exists i | 0 <= i < |rs| :: rs[i] == Err(r.error) && forall j | 0 <= j < i :: rs[j].Ok?
  {
    if rs == [] then Ok([])
    else
      assert forall i | 0 < i < |rs| :: rs[i] == rs[1..][i - 1];
      match (rs[0], Collect(rs[1..]))
      case (Err(e), _) => assert rs[0] == Err(e); Err(e)
      case (_, Err(e)) =>
        ghost var k :| 0 <= k < |rs[1..]| && rs[1..][k] == Err(e) && forall j | 0 <= j < k :: rs[1..][j].Ok?;
        assert rs[k + 1] == Err(e);
        Err(e)
      case (Ok(v), Ok(vs)) => Ok([v] + vs)
  }

  function MapSeq<A, B>(f: A -> B, s: seq<A>): (r: seq<B>)
    ensures |r| == |s| && forall i | 0 <= i < |s| :: r[i] == f(s[i])
  {
    seq(|s|, i requires 0 <= i < |s| => f(s[i]))
  }

  lemma {:induction false} MapAppend<A, B>(f: A -> B, s: seq<A>, t: seq<A>)
    ensures MapSeq(f, s + t) == MapSeq(f, s) + MapSeq(f, t)
  {
  }

  lemma {:induction false} CollectAppend<T, E>(rs: seq<Result<T, E>>, qs: seq<Result<T, E>>)
    ensures Collect(rs + qs).Ok? <==> Collect(rs).Ok? && Collect(qs).Ok?
    ensures Collect(rs + qs).Ok? ==> Collect(rs + qs).value == Collect(rs).value + Collect(qs).value
  {
    hide Collect;
    var both := rs + qs;
    assert forall i | 0 <= i < |rs| :: both[i] == rs[i];
    assert forall i | 0 <= i < |qs| :: both[|rs| + i] == qs[i];
  }

  /** The last position where `p` holds. */
  function LastWhere<T>(s: seq<T>, p: T -> bool): (r: Option<nat>)
    ensures r.None? <==> forall i | 0 <= i < |s| :: !p(s[i])
    ensures r.Some? ==> r.value < |s| && p(s[r.value]) && forall j | r.value < j < |s| :: !p(s[j])
  {
    if s == [] then None
    else
      var n := |s| - 1;
      if p(s[n]) then Some(n) else LastWhere(s[..n], p)
  }

  /** The sum of the first `i` numbers. */
  function PrefixSum(ns: seq<int>, i: nat): (r: int)
    requires i <= |ns|
    ensures (forall j | 0 <= j < i :: 0 <= ns[j]) ==> 0 <= r
  {
    if i == 0 then 0 else PrefixSum(ns, i - 1) + ns[i - 1]
  }

  lemma {:induction false} PrefixSumShift(ns: seq<int>, i: nat)
    requires 0 < i <= |ns|
    ensures PrefixSum(ns, i) == ns[0] + PrefixSum(ns[1..], i - 1)
  {
    if i > 1 {
      PrefixSumShift(ns, i - 1);
    }
  }

  function Sizes<T>(xss: seq<seq<T>>): seq<nat> {
    MapSeq((xs: seq<T>) => |xs|, xss)
  }

  /** The first `i` sequences take as much room as their sizes say. */
  lemma {:induction false} SizesSum<T>(xss: seq<seq<T>>, i: nat)
    requires i <= |xss|
    ensures PrefixSum(Sizes(xss), i) == |Concat(xss[..i])|
  {
    if i > 0 {
      SizesSum(xss, i - 1);
      assert xss[..i] == xss[..i - 1] + [xss[i - 1]];
      ConcatSnoc(xss[..i - 1], xss[i - 1]);
    }
  }

  /** Each sequence sits in the concatenation where the earlier ones end. */
  lemma {:induction false} ConcatAt<T>(xss: seq<seq<T>>, i: nat)
    requires i < |xss|
    ensures var at := PrefixSum(Sizes(xss), i);
            0 <= at <= at + |xss[i]| <= |Concat(xss)| && Concat(xss)[at..at + |xss[i]|] == xss[i]
  {
    SizesSum(xss, i);
    var a, b := xss[..i], xss[i + 1..];
    assert xss == (a + [xss[i]]) + b;
    ConcatAppend(a + [xss[i]], b);
    ConcatSnoc(a, xss[i]);
  }
}
