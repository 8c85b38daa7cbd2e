/**
  * Who frees the boxed slices that Go allocates in the foreign heap: cgo/helpers.go, cgo/types.go and
  * the conversion and cleaner pairs of proofs.go.
  */
module Ownership {
  import opened Common
  import Sectors

  /** The foreign allocator. `freed` lists every free, in order. */
  class Native {
    var heap: map<nat, Bytes>
    var next: nat
    ghost var freed: seq<nat>

    /** Every box ever allocated is either live or was freed, and no box was freed twice. */
    ghost predicate Valid()
      reads this
    {
      && (forall id | id in heap :: id < next)
      && Accounted(heap, freed, next)
    }

    constructor ()
      ensures Valid() && heap == map[] && next == 0 && freed == []
    {
      heap, next, freed := map[], 0, [];
    }

    method Alloc(data: Bytes) returns (id: nat)
      requires Valid()
      modifies this
      ensures Valid() && id == old(next) && next == id + 1 && freed == old(freed)
      ensures id !in old(heap) && heap == old(heap)[id := data]
    {
      id := next;
      heap := heap[id := data];
      next := next + 1;
      assert forall i: nat | i < id :: i in heap <==> i in old(heap);
    }

    /** Freeing anything that is not allocated is not allowed. */
    method Free(id: nat)
      requires Valid() && id in heap
      modifies this
      ensures Valid() && next == old(next) && freed == old(freed) + [id] && heap == old(heap) - {id}
    {
      heap := heap - {id};
      freed := freed + [id];
    }
  }

  ghost predicate Accounted(heap: map<nat, Bytes>, freed: seq<nat>, next: nat) {
    && Distinct(freed)
    && (forall id | id in freed :: id < next)
    && (forall id: nat | id < next :: id in heap <==> id !in freed)
  }

  // ---------------------------------------------------------------- boxes

  datatype Box = Null | Ptr(id: nat)

  function BoxIds(b: Box): seq<nat> {
    match b
    case Null => []
    case Ptr(id) => [id]
  }

  method AllocSliceBoxedUint8(native: Native, goBytes: Bytes) returns (b: Box)
    requires native.Valid()
    modifies native
    ensures native.Valid() && native.freed == old(native.freed)
    ensures b == Ptr(old(native.next)) && native.next == old(native.next) + 1
    ensures native.heap == old(native.heap)[old(native.next) := goBytes]
  {
    var id := native.Alloc(goBytes);
    b := Ptr(id);
  }

  /** `Destroy`: frees the box unless it is null, and leaves null behind. */
  method DestroyBox(native: Native, b: Box) returns (b': Box)
    requires native.Valid() && forall id | id in BoxIds(b) :: id in native.heap
    modifies native
    ensures native.Valid() && b' == Null && native.next == old(native.next)
    ensures native.freed == old(native.freed) + BoxIds(b)
    ensures native.heap == old(native.heap) - Set(BoxIds(b))
  {
    if b.Ptr? {
      native.Free(b.id);
    }
    b' := Null;
  }

  function Set(ids: seq<nat>): set<nat> {
    set id | id in ids
  }

  ghost predicate Distinct(ids: seq<nat>) {
    forall i, j | 0 <= i < j < |ids| :: ids[i] != ids[j]
  }

  // ---------------------------------------------------------------- replica infos

  type PrivateSectorInfo = Sectors.PrivateSectorInfo

  datatype PrivateReplicaInfo = PrivateReplicaInfo(proof: nat, commR: Bytes, cacheDir: Box, path: Box, sectorId: u64)

  const ZERO: PrivateReplicaInfo := PrivateReplicaInfo(0, [], Null, Null, 0)

  function InfoIds(r: PrivateReplicaInfo): seq<nat> {
    BoxIds(r.cacheDir) + BoxIds(r.path)
  }

  /** The ids from `lo` up to `hi`: what a run of allocations hands out. */
  function Range(lo: nat, hi: nat): seq<nat>
    requires lo <= hi
  {
    seq(hi - lo, i => lo + i)
  }

  method NewPrivateReplicaInfo(native: Native, pp: nat, cacheDirPath: Bytes, commR: Bytes,
                               replicaPath: Bytes, sectorId: u64)
    returns (r: PrivateReplicaInfo)
    requires native.Valid()
    modifies native
    ensures native.Valid() && native.freed == old(native.freed) && native.next == old(native.next) + 2
    ensures r == PrivateReplicaInfo(pp, commR, Ptr(old(native.next)), Ptr(old(native.next) + 1), sectorId)
    ensures native.heap == old(native.heap)[old(native.next) := cacheDirPath][old(native.next) + 1 := replicaPath]
  {
    var c := AllocSliceBoxedUint8(native, cacheDirPath);
    var p := AllocSliceBoxedUint8(native, replicaPath);
    r := PrivateReplicaInfo(pp, commR, c, p, sectorId);
  }

  method DestroyInfo(native: Native, r: PrivateReplicaInfo) returns (r': PrivateReplicaInfo)
    requires native.Valid() && Distinct(InfoIds(r)) && forall id | id in InfoIds(r) :: id in native.heap
    modifies native
    ensures native.Valid() && native.next == old(native.next)
    ensures r' == r.(cacheDir := Null, path := Null)
    ensures native.freed == old(native.freed) + InfoIds(r)
    ensures native.heap == old(native.heap) - Set(InfoIds(r))
  {
    var all := InfoIds(r);
    assert r.cacheDir.Ptr? && r.path.Ptr? ==> all[0] == r.cacheDir.id && all[1] == r.path.id;
    var c := DestroyBox(native, r.cacheDir);
    var p := DestroyBox(native, r.path);
    r' := r.(cacheDir := c, path := p);
    assert Set(InfoIds(r)) == Set(BoxIds(r.cacheDir)) + Set(BoxIds(r.path));
  }

  // ---------------------------------------------------------------- what a list of owners owns

  /** The boxes of a list, in order; `own` gives those of one entry. */
  function Ids<A>(own: A -> seq<nat>, rs: seq<A>): seq<nat> {
    Concat(MapSeq(own, rs))
  }

  lemma {:induction false} IdsNil<A>(own: A -> seq<nat>)
    ensures Ids(own, []) == []
  {
  }

  lemma {:induction false} IdsAppend<A>(own: A -> seq<nat>, rs: seq<A>, qs: seq<A>)
    ensures Ids(own, rs + qs) == Ids(own, rs) + Ids(own, qs)
  {
    MapAppend(own, rs, qs);
    ConcatAppend(MapSeq(own, rs), MapSeq(own, qs));
  }

  lemma {:induction false} IdsSnoc<A>(own: A -> seq<nat>, rs: seq<A>, r: A)
    ensures Ids(own, rs + [r]) == Ids(own, rs) + own(r)
  {
    IdsAppend(own, rs, [r]);
    assert MapSeq(own, [r]) == [own(r)];
    assert Concat([own(r)]) == own(r) + Concat<nat>([]);
  }

  /** The entry at `i` owns what comes after the entries before it, and shares none of it. */
  lemma {:induction false} CleanStep<A>(own: A -> seq<nat>, owned: seq<A>, i: nat)
    requires i < |owned| && Distinct(Ids(own, owned))
    ensures Ids(own, owned[..i + 1]) == Ids(own, owned[..i]) + own(owned[i])
    ensures Distinct(own(owned[i]))
    ensures forall id | id in own(owned[i]) :: id in Ids(own, owned) && id !in Ids(own, owned[..i])
    ensures Set(Ids(own, owned[..i + 1])) == Set(Ids(own, owned[..i])) + Set(own(owned[i]))
  {
    hide Ids;
    assert owned[..i + 1] == owned[..i] + [owned[i]];
    IdsSnoc(own, owned[..i], owned[i]);
    assert owned == owned[..i + 1] + owned[i + 1..];
    IdsAppend(own, owned[..i + 1], owned[i + 1..]);
    MiddleDistinct(Ids(own, owned[..i]), own(owned[i]), Ids(own, owned[i + 1..]));
  }

  lemma {:induction false} MiddleDistinct(a: seq<nat>, b: seq<nat>, c: seq<nat>)
    requires Distinct(a + b + c)
    ensures Distinct(b) && forall id | id in b :: id in a + b + c && id !in a
    ensures Set(a + b) == Set(a) + Set(b)
  {
    var all := a + b + c;
    assert forall k | 0 <= k < |a| :: a[k] == all[k];
    assert forall k | 0 <= k < |b| :: b[k] == all[|a| + k];
  }

  /** The entries own exactly what was allocated between `lo` and `hi`; the rest of the heap is as it was. */
  ghost predicate Owns<A>(own: A -> seq<nat>, rs: seq<A>, heap0: map<nat, Bytes>, heap: map<nat, Bytes>,
                          lo: nat, hi: nat)
  {
    && lo <= hi && Ids(own, rs) == Range(lo, hi)
    && (forall id | id in heap0 :: id < lo && id in heap && heap[id] == heap0[id])
    && (forall id: nat :: id in heap <==> id in heap0 || lo <= id < hi)
  }

  lemma {:induction false} OwnsNil<A>(own: A -> seq<nat>, heap: map<nat, Bytes>, next: nat)
    requires forall id | id in heap :: id < next
    ensures Owns(own, [], heap, heap, next, next)
  {
  }

  lemma {:induction false} OwnsDistinct<A>(own: A -> seq<nat>, rs: seq<A>, heap0: map<nat, Bytes>,
                                           heap: map<nat, Bytes>, lo: nat, hi: nat)
    requires Owns(own, rs, heap0, heap, lo, hi)
    ensures Distinct(Ids(own, rs)) && forall id | id in Ids(own, rs) :: id in heap
    ensures Ids(own, rs) == Range(lo, hi) && heap - Set(Ids(own, rs)) == heap0
  {
    hide Ids;
    assert forall i | 0 <= i < hi - lo :: Range(lo, hi)[i] == lo + i;
    forall id: nat ensures id in Set(Ids(own, rs)) <==> lo <= id < hi {
      if lo <= id < hi {
        assert Range(lo, hi)[id - lo] == id;
      }
    }
  }

  /** An entry that owns the allocations from `hi` to `hi'` extends the list. */
  lemma {:induction false} OwnsSnoc<A>(own: A -> seq<nat>, rs: seq<A>, r: A, heap0: map<nat, Bytes>,
                                       heap: map<nat, Bytes>, heap': map<nat, Bytes>, lo: nat, hi: nat, hi': nat)
    requires Owns(own, rs, heap0, heap, lo, hi) && hi <= hi' && own(r) == Range(hi, hi')
    requires forall id: nat :: id in heap' <==> id in heap || hi <= id < hi'
    requires forall id | id in heap :: heap'[id] == heap[id]
    ensures Owns(own, rs + [r], heap0, heap', lo, hi')
  {
    IdsSnoc(own, rs, r);
    hide Ids;
    assert Range(lo, hi') == Range(lo, hi) + Range(hi, hi');
  }

  // ---------------------------------------------------------------- cleaners

  /**
    * Runs the cleaner of `src` up to `limit`. Everything the entries own is freed once and in order,
    * and they own nothing afterwards, so that running it again frees nothing.
    */
  method CleanInfos(native: Native, src: array<PrivateReplicaInfo>, limit: nat)
    requires native.Valid() && limit <= src.Length
    requires Distinct(Ids(InfoIds, src[..limit])) && forall id | id in Ids(InfoIds, src[..limit]) :: id in native.heap
    modifies native, src
    ensures native.Valid() && native.next == old(native.next)
    ensures native.freed == old(native.freed) + old(Ids(InfoIds, src[..limit]))
    ensures native.heap == old(native.heap) - Set(old(Ids(InfoIds, src[..limit])))
    ensures Ids(InfoIds, src[..limit]) == [] && src[limit..] == old(src[limit..])
  {
    hide Ids;
    ghost var owned := src[..limit];
    var i := 0;
    IdsNil(InfoIds);
    while i < limit
      invariant 0 <= i <= limit && native.Valid() && native.next == old(native.next)
      invariant src[i..] == old(src[i..]) && Ids(InfoIds, src[..i]) == []
      invariant native.freed == old(native.freed) + Ids(InfoIds, owned[..i])
      invariant native.heap == old(native.heap) - Set(Ids(InfoIds, owned[..i]))
    {
      CleanStep(InfoIds, owned, i);
      assert src[i] == owned[i];
      var r := DestroyInfo(native, src[i]);
      src[i] := r;
      assert src[..i + 1] == src[..i] + [r];
      IdsSnoc(InfoIds, src[..i], r);
      AppendAssoc(old(native.freed), Ids(InfoIds, owned[..i]), InfoIds(owned[i]));
      i := i + 1;
    }
    assert owned[..i] == owned;
  }

  /** The same for a plain list of boxes. */
  method CleanBoxes(native: Native, src: array<Box>, limit: nat)
    requires native.Valid() && limit <= src.Length
    requires Distinct(Ids(BoxIds, src[..limit])) && forall id | id in Ids(BoxIds, src[..limit]) :: id in native.heap
    modifies native, src
    ensures native.Valid() && native.next == old(native.next)
    ensures native.freed == old(native.freed) + old(Ids(BoxIds, src[..limit]))
    ensures native.heap == old(native.heap) - Set(old(Ids(BoxIds, src[..limit])))
    ensures Ids(BoxIds, src[..limit]) == [] && src[limit..] == old(src[limit..])
  {
    hide Ids;
    ghost var owned := src[..limit];
    var i := 0;
    IdsNil(BoxIds);
    while i < limit
      invariant 0 <= i <= limit && native.Valid() && native.next == old(native.next)
      invariant src[i..] == old(src[i..]) && Ids(BoxIds, src[..i]) == []
      invariant native.freed == old(native.freed) + Ids(BoxIds, owned[..i])
      invariant native.heap == old(native.heap) - Set(Ids(BoxIds, owned[..i]))
    {
      CleanStep(BoxIds, owned, i);
      assert src[i] == owned[i];
      var b := DestroyBox(native, src[i]);
      src[i] := b;
      assert src[..i + 1] == src[..i] + [b];
      IdsSnoc(BoxIds, src[..i], b);
      AppendAssoc(old(native.freed), Ids(BoxIds, owned[..i]), BoxIds(owned[i]));
      i := i + 1;
    }
    assert owned[..i] == owned;
  }

  // ---------------------------------------------------------------- converting a list

  /** The two conversions of the client's types that can fail. */
  datatype Conv = Conv(commR: Bytes -> Option<Bytes>, proof: nat -> Option<nat>)

  predicate Convertible(conv: Conv, s: PrivateSectorInfo) {
    conv.commR(s.sealedCid).Some? && conv.proof(s.proofType).Some?
  }

  /** What a converted entry holds: the converted fields, and boxes with the two paths. */
  ghost predicate Converted(conv: Conv, s: PrivateSectorInfo, r: PrivateReplicaInfo, heap: map<nat, Bytes>) {
    && Convertible(conv, s)
    && r.proof == conv.proof(s.proofType).value && r.commR == conv.commR(s.sealedCid).value && r.sectorId == s.number
    && r.cacheDir.Ptr? && r.cacheDir.id in heap && heap[r.cacheDir.id] == s.cacheDir
    && r.path.Ptr? && r.path.id in heap && heap[r.path.id] == s.sealedPath
  }

  /**
    * The result carries the array and its cleaner's limit. On failure everything allocated so far has
    * been freed, once each; on success it is all live and owned by the entries, in order.
    */
  method ToFilPrivateReplicaInfos(native: Native, conv: Conv, src: seq<PrivateSectorInfo>)
    returns (r: Option<(array<PrivateReplicaInfo>, nat)>)
    requires native.Valid()
    modifies native
    ensures native.Valid() && old(native.next) <= native.next
    ensures r.Some? <==> forall i | 0 <= i < |src| ::
              conv.commR(src[i].sealedCid).Some? && conv.proof(src[i].proofType).Some?
    ensures r.None? ==> native.heap == old(native.heap)
                        && native.freed == old(native.freed) + Range(old(native.next), native.next)
    ensures r.Some? ==> fresh(r.value.0) && r.value.0.Length == |src| == r.value.1 && native.freed == old(native.freed)
    ensures r.Some? ==> Owns(InfoIds, r.value.0[..], old(native.heap), native.heap, old(native.next), native.next)
    ensures r.Some? ==> forall i | 0 <= i < |src| :: Converted(conv, src[i], r.value.0[i], native.heap)
  {
    hide Owns, Ids, Converted, Distinct;
    var out := new PrivateReplicaInfo[|src|](_ => ZERO);
    var idx := 0;
    OwnsNil(InfoIds, native.heap, native.next);
    while idx < out.Length
      invariant 0 <= idx <= out.Length && native.Valid() && old(native.next) <= native.next
      invariant native.freed == old(native.freed)
      invariant Owns(InfoIds, out[..idx], old(native.heap), native.heap, old(native.next), native.next)
      invariant AllConverted(conv, src, out[..idx], native.heap)
    {
      OwnsDistinct(InfoIds, out[..idx], old(native.heap), native.heap, old(native.next), native.next);
      var commR := conv.commR(src[idx].sealedCid);
      if commR.None? {
        CleanInfos(native, out, idx);
        assert !Convertible(conv, src[idx]);
        return None;
      }
      var pp := conv.proof(src[idx].proofType);
      if pp.None? {
        CleanInfos(native, out, idx);
        assert !Convertible(conv, src[idx]);
        return None;
      }
      ghost var before, heap, mid := out[..idx], native.heap, native.next;
      var s := src[idx];
      var info := NewPrivateReplicaInfo(native, pp.value, s.cacheDir, commR.value, s.sealedPath, s.number);
      out[idx] := info;
      assert out[..idx + 1] == before + [info];
      assert InfoIds(info) == [mid, mid + 1] == Range(mid, mid + 2);
      OwnsSnoc(InfoIds, before, info, old(native.heap), heap, native.heap, old(native.next), mid, mid + 2);
      ConvertedSnoc(conv, src, before, info, heap, mid);
      idx := idx + 1;
    }
    assert out[..idx] == out[..];
    ConvertedAll(conv, src, out[..], native.heap);
    return Some((out, |src|));
  }

  ghost predicate AllConverted(conv: Conv, src: seq<PrivateSectorInfo>, rs: seq<PrivateReplicaInfo>,
                               heap: map<nat, Bytes>)
  {
    |rs| <= |src| && forall i | 0 <= i < |rs| :: Converted(conv, src[i], rs[i], heap)
  }

  lemma {:induction false} ConvertedSnoc(conv: Conv, src: seq<PrivateSectorInfo>, rs: seq<PrivateReplicaInfo>,
                                         r: PrivateReplicaInfo, heap: map<nat, Bytes>, next: nat)
    requires AllConverted(conv, src, rs, heap) && |rs| < |src| && forall id | id in heap :: id < next
    requires var s := src[|rs|];
             && Convertible(conv, s)
             && r == PrivateReplicaInfo(conv.proof(s.proofType).value, conv.commR(s.sealedCid).value,
                                        Ptr(next), Ptr(next + 1), s.number)
    ensures AllConverted(conv, src, rs + [r], heap[next := src[|rs|].cacheDir][next + 1 := src[|rs|].sealedPath])
  {
  }

  lemma {:induction false} ConvertedAll(conv: Conv, src: seq<PrivateSectorInfo>, rs: seq<PrivateReplicaInfo>,
                                        heap: map<nat, Bytes>)
    requires AllConverted(conv, src, rs, heap) && |rs| == |src|
    ensures forall i | 0 <= i < |src| :: Convertible(conv, src[i]) && Converted(conv, src[i], rs[i], heap)
  {
  }

  method ToVanillaProofs(native: Native, src: seq<Bytes>) returns (out: array<Box>, limit: nat)
    requires native.Valid()
    modifies native
    ensures native.Valid() && native.next == old(native.next) + |src| && native.freed == old(native.freed)
    ensures fresh(out) && out.Length == |src| == limit
    ensures Owns(BoxIds, out[..], old(native.heap), native.heap, old(native.next), native.next)
    ensures forall i | 0 <= i < |src| :: out[i].Ptr? && out[i].id in native.heap && native.heap[out[i].id] == src[i]
  {
    hide Owns, Ids;
    out := new Box[|src|](_ => Null);
    var i := 0;
    OwnsNil(BoxIds, native.heap, native.next);
    while i < out.Length
      invariant 0 <= i <= out.Length && native.Valid() && native.next == old(native.next) + i
      invariant native.freed == old(native.freed)
      invariant Owns(BoxIds, out[..i], old(native.heap), native.heap, old(native.next), native.next)
      invariant forall j | 0 <= j < i :: out[j].Ptr? && out[j].id in native.heap && native.heap[out[j].id] == src[j]
    {
      ghost var before, heap, mid := out[..i], native.heap, native.next;
      var b := AllocSliceBoxedUint8(native, src[i]);
      out[i] := b;
      assert out[..i + 1] == before + [b];
      assert BoxIds(b) == [mid] == Range(mid, mid + 1);
      OwnsSnoc(BoxIds, before, b, old(native.heap), heap, native.heap, old(native.next), mid, mid + 1);
      i := i + 1;
    }
    assert out[..i] == out[..];
    limit := |src|;
  }

  // ---------------------------------------------------------------- callers

  /** What Rust reads of an entry whose boxes are live. */
  function AsReplica(heap: map<nat, Bytes>, r: PrivateReplicaInfo): Sectors.Replica
    requires r.cacheDir.Ptr? && r.cacheDir.id in heap && r.path.Ptr? && r.path.id in heap
  {
    Sectors.Replica(r.sectorId, Sectors.Info(r.proof, r.commR, heap[r.cacheDir.id], heap[r.path.id]))
  }

  /** The replica that a private sector is for Rust. */
  function Crossing(conv: Conv, s: PrivateSectorInfo): Sectors.Replica
    requires Convertible(conv, s)
  {
    Sectors.Replica(s.number, Sectors.Info(conv.proof(s.proofType).value, conv.commR(s.sealedCid).value,
                                           s.cacheDir, s.sealedPath))
  }

  function Crossings(conv: Conv, src: seq<PrivateSectorInfo>): (rs: seq<Sectors.Replica>)
    requires forall i | 0 <= i < |src| :: Convertible(conv, src[i])
  {
    seq(|src|, i requires 0 <= i < |src| => Crossing(conv, src[i]))
  }

  /** Rust reads the list of replicas out of the foreign heap. */
  method ReadReplicas(native: Native, src: array<PrivateReplicaInfo>) returns (rs: seq<Sectors.Replica>)
    requires forall i | 0 <= i < src.Length ::
               && src[i].cacheDir.Ptr? && src[i].cacheDir.id in native.heap
               && src[i].path.Ptr? && src[i].path.id in native.heap
    ensures |rs| == src.Length && forall i | 0 <= i < src.Length :: rs[i] == AsReplica(native.heap, src[i])
  {
    rs := [];
    for i := 0 to src.Length
      invariant |rs| == i && forall j | 0 <= j < i :: rs[j] == AsReplica(native.heap, src[j])
    {
      rs := rs + [AsReplica(native.heap, src[i])];
    }
  }

  /**
    * Convert, return on error, defer the cleaner, call the foreign library, which builds its map from
    * what it reads and proves. It is given the sectors of the list and nothing else; whatever happens
    * nothing stays allocated, and every box allocated on the way was freed exactly once.
    */
  method GeneratePoSt(native: Native, conv: Conv, src: seq<PrivateSectorInfo>, pathOk: Bytes -> bool,
                      prove: map<u64, Sectors.Info> -> bool) returns (ok: bool)
    requires native.Valid()
    modifies native
    ensures native.Valid() && old(native.next) <= native.next
    ensures native.heap == old(native.heap)
    ensures native.freed == old(native.freed) + Range(old(native.next), native.next)
    ensures ok <==> && (forall i | 0 <= i < |src| ::
                          conv.commR(src[i].sealedCid).Some? && conv.proof(src[i].proofType).Some?)
                    && var replicas := Sectors.ToPrivateMap(pathOk, Crossings(conv, src));
                       replicas.Ok? && prove(replicas.value)
  {
    hide Ids, Owns;
    var r := ToFilPrivateReplicaInfos(native, conv, src);
    if r.None? {
      return false;
    }
    var (out, limit) := r.value;
    OwnsDistinct(InfoIds, out[..], old(native.heap), native.heap, old(native.next), native.next);
    assert out[..limit] == out[..];
    var seen := ReadReplicas(native, out);
    assert seen == Crossings(conv, src);
    var replicas := Sectors.ToPrivateMap(pathOk, seen);
    ok := replicas.Ok? && prove(replicas.value);
    CleanInfos(native, out, limit);
  }

  /**
    * From the list a client gives to the map the prover walks. With the constructor's list `f`, the
    * map is built exactly when all paths of `f` are good, and an ascending walk through it meets the
    * numbers of `f` in order, each with the converted data of the first input entry that has it.
    */
  lemma {:induction false} SectorsReachProver(
    conv: Conv, pathOk: Bytes -> bool, input: seq<PrivateSectorInfo>, f: seq<PrivateSectorInfo>, keys: seq<u64>
  )
    requires Sectors.SortedFirst(input, f) && forall i | 0 <= i < |f| :: Convertible(conv, f[i])
    ensures var replicas := Sectors.ToPrivateMap(pathOk, Crossings(conv, f));
            && (replicas.Ok? <==> forall i | 0 <= i < |f| :: pathOk(f[i].cacheDir) && pathOk(f[i].sealedPath))
            && (replicas.Ok? && Sectors.Ascending(keys) && (forall k: u64 :: k in keys <==> k in replicas.value) ==>
                  && keys == Sectors.Numbers(f)
                  && forall i | 0 <= i < |f| ::
                       && Sectors.FirstIn(input, f[i]) && keys[i] in replicas.value
                       && replicas.value[keys[i]].proof == conv.proof(f[i].proofType).value
                       && replicas.value[keys[i]].commR == conv.commR(f[i].sealedCid).value
                       && replicas.value[keys[i]].cacheDir == f[i].cacheDir
                       && replicas.value[keys[i]].path == f[i].sealedPath)
  {
    hide Sectors.Collected, Sectors.ToPrivateMap, Sectors.FirstIn, Sectors.Ascending;
    var rs := Crossings(conv, f);
    var replicas := Sectors.ToPrivateMap(pathOk, rs);
    Sectors.PrivateMapIff(pathOk, rs);
    assert forall i | 0 <= i < |f| :: rs[i].info.cacheDir == f[i].cacheDir && rs[i].info.path == f[i].sealedPath;
    assert Sectors.Ids(rs) == Sectors.Numbers(f);
    assert forall i | 0 <= i < |f| :: f[i] in f;
    if replicas.Ok? && Sectors.Ascending(keys) && (forall k: u64 :: k in keys <==> k in replicas.value) {
      Sectors.MapKeepsOrder(rs, keys);
    }
  }

  /** Rust reads the list of proofs out of the foreign heap. */
  method ReadBoxes(native: Native, src: array<Box>) returns (bs: seq<Bytes>)
    requires forall i | 0 <= i < src.Length :: src[i].Ptr? && src[i].id in native.heap
    ensures |bs| == src.Length && forall i | 0 <= i < src.Length :: bs[i] == native.heap[src[i].id]
  {
    bs := [];
    for i := 0 to src.Length
      invariant |bs| == i && forall j | 0 <= j < i :: bs[j] == native.heap[src[j].id]
    {
      bs := bs + [native.heap[src[i].id]];
    }
  }

  /**
    * The cleaner is deferred before the aggregation type is converted, so a failure there leaks
    * nothing. The library is given the type and the client's proofs.
    */
  method AggregateSealProofs(native: Native, proofs: seq<Bytes>, aggregation: Option<nat>,
                             prove: (nat, seq<Bytes>) -> bool)
    returns (ok: bool)
    requires native.Valid()
    modifies native
    ensures native.Valid() && native.next == old(native.next) + |proofs|
    ensures native.heap == old(native.heap)
    ensures native.freed == old(native.freed) + Range(old(native.next), native.next)
    ensures ok <==> aggregation.Some? && prove(aggregation.value, proofs)
  {
    hide Ids;
    var out, limit := ToVanillaProofs(native, proofs);
    OwnsDistinct(BoxIds, out[..], old(native.heap), native.heap, old(native.next), native.next);
    assert out[..limit] == out[..];
    if aggregation.Some? {
      var seen := ReadBoxes(native, out);
      assert seen == proofs;
      ok := prove(aggregation.value, seen);
    } else {
      ok := false;
    }
    CleanBoxes(native, out, limit);
  }

  /** Running a cleaner a second time frees nothing more. */
  method CleanTwice(native: Native, src: array<PrivateReplicaInfo>, limit: nat)
    requires native.Valid() && limit <= src.Length
    requires Distinct(Ids(InfoIds, src[..limit])) && forall id | id in Ids(InfoIds, src[..limit]) :: id in native.heap
    modifies native, src
    ensures native.freed == old(native.freed) + old(Ids(InfoIds, src[..limit]))
    ensures native.heap == old(native.heap) - Set(old(Ids(InfoIds, src[..limit])))
  {
    CleanInfos(native, src, limit);
    CleanInfos(native, src, limit);
  }
}
