/**
  * Private sector lists: NewSortedPrivateSectorInfo and SplitSortedPrivateSectorInfo of types.go, and
  * the replica maps that rust/src/proofs/helpers.rs builds from them.
  */
module Sectors {
  import opened Common

  datatype PrivateSectorInfo =
    PrivateSectorInfo(number: u64, proofType: nat, cacheDir: Bytes, sealedPath: Bytes, sealedCid: Bytes)

  function Numbers(s: seq<PrivateSectorInfo>): seq<u64> {
    MapSeq((x: PrivateSectorInfo) => x.number, s)
  }

  ghost predicate Ascending(ns: seq<u64>) {
    forall i, j | 0 <= i < j < |ns| :: ns[i] < ns[j]
  }

  function Elems(ns: seq<u64>): set<u64> {
    set n | n in ns
  }

  lemma {:induction false} AscendingInit(ns: seq<u64>)
    requires Ascending(ns) && ns != []
    ensures var k := |ns| - 1;
            && Ascending(ns[..k]) && Elems(ns[..k]) == Elems(ns) - {ns[k]}
            && ns[k] in Elems(ns) && forall n | n in Elems(ns) :: n <= ns[k]
  {
    var k := |ns| - 1;
    assert ns == ns[..k] + [ns[k]];
  }

  /** Two ascending lists of the same numbers are the same list. */
  lemma {:induction false} AscendingUnique(a: seq<u64>, b: seq<u64>)
    requires Ascending(a) && Ascending(b) && Elems(a) == Elems(b)
    ensures a == b
  {
    assert a != [] ==> a[0] in Elems(b);
    assert b != [] ==> b[0] in Elems(a);
    if a != [] && b != [] {
      var m, n := |a| - 1, |b| - 1;
      AscendingInit(a);
      AscendingInit(b);
      hide Ascending, Elems;
      assert a[m] == b[n];
      AscendingUnique(a[..m], b[..n]);
      SplitLast(a);
      SplitLast(b);
    }
  }

  // ---------------------------------------------------------------- deduplication

  ghost predicate DistinctNumbers(s: seq<PrivateSectorInfo>) {
    forall i, j | 0 <= i < j < |s| :: s[i].number != s[j].number
  }

  /** `x` is in `s` and no earlier entry has its number. */
  ghost predicate FirstIn(s: seq<PrivateSectorInfo>, x: PrivateSectorInfo) {
    exists i :: 0 <= i < |s| && s[i] == x && forall j | 0 <= j < i :: s[j].number != x.number
  }

  method Dedup(sectorInfo: seq<PrivateSectorInfo>) returns (result: seq<PrivateSectorInfo>)
    ensures DistinctNumbers(result)
    ensures forall x | x in result :: FirstIn(sectorInfo, x)
    ensures forall n: u64 :: n in Numbers(result) <==> n in Numbers(sectorInfo)
  {
    result := [];
    var seen: set<u64> := {};
    var i := 0;
    while i < |sectorInfo|
      invariant 0 <= i <= |sectorInfo|
      invariant forall n: u64 :: n in seen <==> n in Numbers(sectorInfo[..i])
      invariant forall n: u64 :: n in seen <==> n in Numbers(result)
      invariant DistinctNumbers(result)
      invariant forall x | x in result :: FirstIn(sectorInfo, x)
    {
      var x := sectorInfo[i];
      assert sectorInfo[..i + 1] == sectorInfo[..i] + [x];
      NumbersSnoc(sectorInfo[..i], x);
      if x.number !in seen {
        NewIsFirst(sectorInfo, i);
        NumbersSnoc(result, x);
        seen := seen + {x.number};
        result := result + [x];
      }
      i := i + 1;
    }
    assert sectorInfo[..i] == sectorInfo;
  }

  lemma {:induction false} NewIsFirst(s: seq<PrivateSectorInfo>, i: nat)
    requires i < |s| && s[i].number !in Numbers(s[..i])
    ensures FirstIn(s, s[i])
  {
    forall j | 0 <= j < i ensures s[j].number != s[i].number {
      assert Numbers(s[..i])[j] == s[j].number;
    }
  }

  lemma {:induction false} NumbersSnoc(s: seq<PrivateSectorInfo>, x: PrivateSectorInfo)
    ensures forall n: u64 :: n in Numbers(s + [x]) <==> n in Numbers(s) || n == x.number
    ensures DistinctNumbers(s) && x.number !in Numbers(s) ==> DistinctNumbers(s + [x])
  {
    assert Numbers(s + [x]) == Numbers(s) + [x.number];
    assert forall i | 0 <= i < |s| :: Numbers(s)[i] == s[i].number;
  }

  // ---------------------------------------------------------------- sorting

  ghost predicate SortedByNumber(s: seq<PrivateSectorInfo>) {
    forall i, j | 0 <= i < j < |s| :: s[i].number <= s[j].number
  }

  /** `sort.Slice`: callers may rely on a sorted permutation and nothing else, so not on stability. */
  method SortSlice(s: seq<PrivateSectorInfo>) returns (r: seq<PrivateSectorInfo>)
    ensures SortedByNumber(r) && multiset(r) == multiset(s)
  {
    r := [];
    var i := 0;
    while i < |s|
      invariant 0 <= i <= |s| && SortedByNumber(r) && multiset(r) == multiset(s[..i])
    {
      assert s[..i + 1] == s[..i] + [s[i]];
      r := Insert(r, s[i]);
      i := i + 1;
    }
    assert s[..i] == s;
  }

  method Insert(s: seq<PrivateSectorInfo>, x: PrivateSectorInfo) returns (r: seq<PrivateSectorInfo>)
    requires SortedByNumber(s)
    ensures SortedByNumber(r) && multiset(r) == multiset(s) + multiset{x}
  {
    var k := 0;
    while k < |s| && s[k].number <= x.number
      invariant 0 <= k <= |s| && forall j | 0 <= j < k :: s[j].number <= x.number
    {
      k := k + 1;
    }
    r := s[..k] + [x] + s[k..];
    InsertKeeps(s, x, k);
  }

  lemma {:induction false} InsertKeeps(s: seq<PrivateSectorInfo>, x: PrivateSectorInfo, k: nat)
    requires k <= |s| && SortedByNumber(s)
    requires (forall j | 0 <= j < k :: s[j].number <= x.number) && (k < |s| ==> x.number < s[k].number)
    ensures var r := s[..k] + [x] + s[k..]; SortedByNumber(r) && multiset(r) == multiset(s) + multiset{x}
  {
    var a, b := s[..k], s[k..];
    TakeDrop(s, k);
    InsertMultiset(a, x, b);
    SlicesAround(s, x, k);
    hide SortedByNumber;
    InsertSorted(s, x, k, a + [x] + b);
  }

  lemma {:induction false} SlicesAround(s: seq<PrivateSectorInfo>, x: PrivateSectorInfo, k: nat)
    requires k <= |s|
    ensures var r := s[..k] + [x] + s[k..];
            && |r| == |s| + 1 && r[k] == x
            && (forall i | 0 <= i < k :: r[i] == s[i]) && (forall i | k < i < |r| :: r[i] == s[i - 1])
  {
  }

  lemma {:induction false} InsertMultiset(a: seq<PrivateSectorInfo>, x: PrivateSectorInfo, b: seq<PrivateSectorInfo>)
    ensures multiset(a + [x] + b) == multiset(a + b) + multiset{x}
  {
  }

  lemma {:induction false} InsertSorted(s: seq<PrivateSectorInfo>, x: PrivateSectorInfo, k: nat,
                                        r: seq<PrivateSectorInfo>)
    requires k <= |s| && SortedByNumber(s)
    requires (forall j | 0 <= j < k :: s[j].number <= x.number) && (k < |s| ==> x.number < s[k].number)
    requires |r| == |s| + 1 && r[k] == x
    requires (forall i | 0 <= i < k :: r[i] == s[i]) && (forall i | k < i < |r| :: r[i] == s[i - 1])
    ensures SortedByNumber(r)
  {
  }

  /** The list that the constructor promises: ascending, the same numbers, the first entry of each. */
  ghost predicate SortedFirst(input: seq<PrivateSectorInfo>, r: seq<PrivateSectorInfo>) {
    && Ascending(Numbers(r))
    && (forall x | x in r :: FirstIn(input, x))
    && (forall n: u64 :: n in Numbers(r) <==> n in Numbers(input))
  }

  method NewSortedPrivateSectorInfo(sectorInfo: seq<PrivateSectorInfo>) returns (f: seq<PrivateSectorInfo>)
    ensures SortedFirst(sectorInfo, f)
  {
    var result := Dedup(sectorInfo);
    f := SortSlice(result);
    SameElements(result, f);
    DistinctSorted(result, f);
  }

  lemma {:induction false} SameElements(s: seq<PrivateSectorInfo>, r: seq<PrivateSectorInfo>)
    requires multiset(r) == multiset(s)
    ensures forall x :: x in r <==> x in s
    ensures forall n: u64 :: n in Numbers(r) <==> n in Numbers(s)
  {
    forall x ensures x in r <==> x in s {
      assert x in multiset(r) <==> x in multiset(s);
    }
    NumbersIn(r, s);
    NumbersIn(s, r);
  }

  lemma {:induction false} NumbersIn(r: seq<PrivateSectorInfo>, s: seq<PrivateSectorInfo>)
    requires forall x | x in r :: x in s
    ensures forall n: u64 | n in Numbers(r) :: n in Numbers(s)
  {
    forall n: u64 | n in Numbers(r) ensures n in Numbers(s) {
      var i :| 0 <= i < |r| && Numbers(r)[i] == n;
      assert r[i] in s;
      var j :| 0 <= j < |s| && s[j] == r[i];
      assert Numbers(s)[j] == n;
    }
  }

  lemma {:induction false} OnceInDistinct(s: seq<PrivateSectorInfo>, x: PrivateSectorInfo)
    requires DistinctNumbers(s)
    ensures multiset(s)[x] <= 1
  {
    if s != [] {
      var n := |s| - 1;
      assert s == s[..n] + [s[n]];
      OnceInDistinct(s[..n], x);
      assert s[n] !in s[..n];
    }
  }

  lemma {:induction false} TwiceInSeq(r: seq<PrivateSectorInfo>, i: nat, j: nat)
    requires i < j < |r| && r[i] == r[j]
    ensures multiset(r)[r[i]] >= 2
  {
    assert r == r[..j] + r[j..];
    assert r[i] in r[..j] && r[j] in r[j..];
  }

  lemma {:induction false} DistinctSorted(s: seq<PrivateSectorInfo>, r: seq<PrivateSectorInfo>)
    requires DistinctNumbers(s) && SortedByNumber(r) && multiset(r) == multiset(s)
    ensures Ascending(Numbers(r))
  {
    SameElements(s, r);
    forall i, j | 0 <= i < j < |r| ensures r[i].number < r[j].number {
      assert r[i] in s && r[j] in s;
      OnceInDistinct(s, r[i]);
      if r[i] == r[j] {
        TwiceInSeq(r, i, j);
      }
    }
  }

  lemma {:induction false} FirstDetermined(s: seq<PrivateSectorInfo>, x: PrivateSectorInfo, y: PrivateSectorInfo)
    requires FirstIn(s, x) && FirstIn(s, y) && x.number == y.number
    ensures x == y
  {
  }

  /** An unstable sort makes no difference: the promised list is unique. */
  lemma {:induction false} SortedFirstUnique(input: seq<PrivateSectorInfo>, r: seq<PrivateSectorInfo>,
                                             r': seq<PrivateSectorInfo>)
    requires SortedFirst(input, r) && SortedFirst(input, r')
    ensures r == r'
  {
    AscendingUnique(Numbers(r), Numbers(r'));
    forall i | 0 <= i < |r| ensures |r| == |r'| && r[i] == r'[i] {
      assert Numbers(r)[i] == Numbers(r')[i];
      assert r[i] in r && r'[i] in r';
      FirstDetermined(input, r[i], r'[i]);
    }
  }

  // ---------------------------------------------------------------- splitting

  function Split(f: seq<PrivateSectorInfo>, start: nat, end: nat): seq<PrivateSectorInfo>
    requires start <= end <= |f|
  {
    f[start..end]
  }

  /** Cut points in order within the list. */
  ghost predicate Cuts(f: seq<PrivateSectorInfo>, cuts: seq<nat>) {
    && cuts != [] && cuts[|cuts| - 1] <= |f|
    && forall i, j | 0 <= i < j < |cuts| :: cuts[i] <= cuts[j]
  }

  function Splits(f: seq<PrivateSectorInfo>, cuts: seq<nat>): seq<seq<PrivateSectorInfo>>
    requires Cuts(f, cuts)
  {
    seq(|cuts| - 1, i requires 0 <= i < |cuts| - 1 => Split(f, cuts[i], cuts[i + 1]))
  }

  lemma {:induction false} SliceJoin(f: seq<PrivateSectorInfo>, a: nat, b: nat, c: nat)
    requires a <= b <= c <= |f|
    ensures f[a..b] + f[b..c] == f[a..c]
  {
  }

  /** Consecutive splits concatenate to what they cover. */
  lemma {:induction false} SplitsCover(f: seq<PrivateSectorInfo>, cuts: seq<nat>)
    requires Cuts(f, cuts)
    ensures Concat(Splits(f, cuts)) == f[cuts[0]..cuts[|cuts| - 1]]
  {
    var n := |cuts| - 1;
    if n > 0 {
      var front, last := cuts[..n], Split(f, cuts[n - 1], cuts[n]);
      SplitsCover(f, front);
      assert Splits(f, cuts) == Splits(f, front) + [last];
      ConcatSnoc(Splits(f, front), last);
      SliceJoin(f, cuts[0], cuts[n - 1], cuts[n]);
    }
  }

  // ---------------------------------------------------------------- replica maps in Rust

  datatype Info = Info(proof: nat, commR: Bytes, cacheDir: Bytes, path: Bytes)
  datatype Replica = Replica(sectorId: u64, info: Info)
  datatype PathError = PathError(path: Bytes)

  /** The two path conversions of one replica, the first error winning. */
  function Checked(pathOk: Bytes -> bool): Replica -> Result<Replica, PathError> {
    (r: Replica) =>
      if !pathOk(r.info.cacheDir) then Err(PathError(r.info.cacheDir))
      else if !pathOk(r.info.path) then Err(PathError(r.info.path))
      else Ok(r)
  }

  /** Collecting pairs into an ordered map: a later pair replaces an earlier one. */
  function Collected(rs: seq<Replica>): map<u64, Info> {
    if rs == [] then map[]
    else var n := |rs| - 1; Collected(rs[..n])[rs[n].sectorId := rs[n].info]
  }

  function ToPrivateMap(pathOk: Bytes -> bool, replicas: seq<Replica>): Result<map<u64, Info>, PathError> {
    match Collect(MapSeq(Checked(pathOk), replicas))
    case Err(e) => Err(e)
    case Ok(rs) => Ok(Collected(rs))
  }

  lemma {:induction false} LastWins(rs: seq<Replica>, id: u64)
    ensures match LastWhere(rs, (r: Replica) => r.sectorId == id)
            case Some(i) => id in Collected(rs) && Collected(rs)[id] == rs[i].info
            case None => id !in Collected(rs)
  {
    if rs != [] {
      LastWins(rs[..|rs| - 1], id);
    }
  }

  /** The first bad path, in list order and cache directory first, is the error; otherwise all are kept. */
  lemma {:induction false} PrivateMapIff(pathOk: Bytes -> bool, replicas: seq<Replica>)
    ensures ToPrivateMap(pathOk, replicas).Ok? <==>
            forall i | 0 <= i < |replicas| :: pathOk(replicas[i].info.cacheDir) && pathOk(replicas[i].info.path)
    ensures ToPrivateMap(pathOk, replicas).Ok? ==> ToPrivateMap(pathOk, replicas).value == Collected(replicas)
    ensures ToPrivateMap(pathOk, replicas).Err? ==>
              exists i | 0 <= i < |replicas| ::
                && (forall j | 0 <= j < i :: pathOk(replicas[j].info.cacheDir) && pathOk(replicas[j].info.path))
                && (if !pathOk(replicas[i].info.cacheDir)
                    then ToPrivateMap(pathOk, replicas).error.path == replicas[i].info.cacheDir
                    else !pathOk(replicas[i].info.path)
                         && ToPrivateMap(pathOk, replicas).error.path == replicas[i].info.path)
  {
    var rs := MapSeq(Checked(pathOk), replicas);
    assert forall i | 0 <= i < |rs| :: rs[i] == Checked(pathOk)(replicas[i]);
    hide MapSeq, Collected;
    if Collect(rs).Ok? {
      assert Collect(rs).value == replicas;
    }
  }

  function Ids(rs: seq<Replica>): seq<u64> {
    MapSeq((r: Replica) => r.sectorId, rs)
  }

  lemma {:induction false} MapKeys(rs: seq<Replica>, id: u64)
    ensures id in Collected(rs) <==> id in Ids(rs)
  {
    LastWins(rs, id);
    assert forall i | 0 <= i < |rs| :: Ids(rs)[i] == rs[i].sectorId;
  }

  /**
    * For replicas in ascending order the map has an entry for each, met in the same order by a walk
    * through the keys, which an ordered map makes in ascending order.
    */
  lemma {:induction false} MapKeepsOrder(rs: seq<Replica>, keys: seq<u64>)
    requires Ascending(Ids(rs))
    requires Ascending(keys) && forall k: u64 :: k in keys <==> k in Collected(rs)
    ensures keys == Ids(rs)
    ensures forall i | 0 <= i < |rs| :: keys[i] in Collected(rs) && Collected(rs)[keys[i]] == rs[i].info
  {
    forall id: u64 ensures id in keys <==> id in Ids(rs) {
      MapKeys(rs, id);
    }
    AscendingUnique(keys, Ids(rs));
    forall i | 0 <= i < |rs| ensures keys[i] in Collected(rs) && Collected(rs)[keys[i]] == rs[i].info {
      LastWins(rs, keys[i]);
      assert forall j | 0 <= j < |rs| :: Ids(rs)[j] == rs[j].sectorId;
    }
  }
}
