/** BLS batches: Go flattens lists into one buffer (bls.go), Rust cuts them again (rust/src/bls/api.rs). */
module Bls {
  import opened Common

  const SIGNATURE_BYTES: nat := 96
  const PUBLIC_KEY_BYTES: nat := 48
  const DIGEST_BYTES: nat := 96

  ghost predicate AllOfWidth(items: seq<Bytes>, width: nat) {
    forall i | 0 <= i < |items| :: |items[i]| == width
  }

  lemma {:induction false} ConcatLen(items: seq<Bytes>, width: nat)
    requires AllOfWidth(items, width)
    ensures |Concat(items)| == width * |items|
  {
    if items != [] {
      ConcatLen(items[1..], width);
      assert width * |items| == width + width * (|items| - 1);
    } else {
      assert width * 0 == 0;
    }
  }

  // ---------------------------------------------------------------- Go

  /** `copy` into the slots of the buffer from `at` on. */
  method Copy(flat: array<byte>, at: nat, item: Bytes)
    requires at + |item| <= flat.Length
    modifies flat
    ensures flat[..at + |item|] == old(flat[..at]) + item
  {
    forall k | 0 <= k < |item| {
      flat[at + k] := item[k];
    }
  }

  /** The flattening loop for fixed-width items: each is copied to its own slot of the buffer. */
  method Flatten(items: seq<Bytes>, width: nat) returns (flat: array<byte>)
    requires AllOfWidth(items, width)
    ensures fresh(flat) && flat[..] == Concat(items)
  {
    hide AllOfWidth;
    flat := new byte[width * |items|](_ => 0);
    ConcatLen(items, width);
    var idx := 0;
    while idx < |items|
      invariant 0 <= idx <= |items| && flat.Length == width * |items|
      invariant 0 <= width * idx <= flat.Length && flat[..width * idx] == Concat(items[..idx])
    {
      SlotFits(items, width, idx);
      Copy(flat, width * idx, items[idx]);
      assert items[..idx + 1] == items[..idx] + [items[idx]];
      ConcatSnoc(items[..idx], items[idx]);
      idx := idx + 1;
    }
    assert items[..idx] == items;
    assert flat[..] == flat[..width * idx];
  }

  lemma {:induction false} SlotFits(items: seq<Bytes>, width: nat, idx: nat)
    requires AllOfWidth(items, width) && idx < |items|
    ensures |items[idx]| == width && width * idx + width == width * (idx + 1) <= width * |items|
  {
  }

  method FlattenMessages(messages: seq<Bytes>) returns (flat: Bytes, sizes: array<nat>)
    ensures fresh(sizes) && flat == Concat(messages) && sizes[..] == Sizes(messages)
  {
    flat := [];
    sizes := new nat[|messages|](_ => 0);
    var idx := 0;
    while idx < |messages|
      invariant 0 <= idx <= |messages| && sizes.Length == |messages|
      invariant flat == Concat(messages[..idx])
      invariant forall k | 0 <= k < idx :: sizes[k] == |messages[k]|
    {
      assert messages[..idx + 1] == messages[..idx] + [messages[idx]];
      ConcatSnoc(messages[..idx], messages[idx]);
      flat := flat + messages[idx];
      sizes[idx] := |messages[idx]|;
      idx := idx + 1;
    }
    assert messages[..idx] == messages;
  }

  // ---------------------------------------------------------------- Rust

  /**
    * The first `i` messages, cut at the running sums; `None` is the panic of a slice that ends beyond
    * the buffer.
    */
  function SplitFirst(flat: Bytes, sizes: seq<nat>, i: nat): (r: Option<seq<Bytes>>)
    requires i <= |sizes|
    ensures r.Some? <==> PrefixSum(sizes, i) <= |flat|
    ensures r.Some? ==> Concat(r.value) == flat[..PrefixSum(sizes, i)] && Sizes(r.value) == sizes[..i]
  {
    if i == 0 then Some([])
    else
      var front := SplitFirst(flat, sizes, i - 1);
      var lo, hi := PrefixSum(sizes, i - 1), PrefixSum(sizes, i);
      if front.None? || hi > |flat| then None
      else
        var message := flat[lo..hi];
        ConcatSnoc(front.value, message);
        MapAppend((m: Bytes) => |m|, front.value, [message]);
        assert flat[..hi] == flat[..lo] + message;
        assert sizes[..i] == sizes[..i - 1] + [sizes[i - 1]] && Sizes([message]) == [sizes[i - 1]];
        Some(front.value + [message])
  }

  function SplitBy(flat: Bytes, sizes: seq<nat>): (r: Option<seq<Bytes>>)
    ensures r.Some? <==> PrefixSum(sizes, |sizes|) <= |flat|
    ensures r.Some? ==> Concat(r.value) == flat[..PrefixSum(sizes, |sizes|)] && Sizes(r.value) == sizes
  {
    assert sizes[..|sizes|] == sizes;
    SplitFirst(flat, sizes, |sizes|)
  }

  method SplitMessages(flat: Bytes, sizes: seq<nat>) returns (r: Option<seq<Bytes>>)
    ensures r == SplitBy(flat, sizes)
  {
    var messages: seq<Bytes> := [];
    var offset := 0;
    var i := 0;
    while i < |sizes|
      invariant 0 <= i <= |sizes| && offset == PrefixSum(sizes, i) <= |flat|
      invariant SplitFirst(flat, sizes, i) == Some(messages)
    {
      if offset + sizes[i] > |flat| {
        SumGrows(sizes, i + 1, |sizes|);
        return None;
      }
      messages := messages + [flat[offset..offset + sizes[i]]];
      offset := offset + sizes[i];
      i := i + 1;
    }
    return Some(messages);
  }

  lemma {:induction false} SumGrows(sizes: seq<nat>, i: nat, j: nat)
    requires i <= j <= |sizes|
    ensures PrefixSum(sizes, i) <= PrefixSum(sizes, j)
  {
    if i < j {
      SumGrows(sizes, i, j - 1);
    }
  }

  /** `par_chunks`: pieces of the given width, the last one possibly shorter. */
  function Chunks(flat: Bytes, width: nat): seq<Bytes>
    requires width > 0
  {
    if flat == [] then [] else if |flat| <= width then [flat] else [flat[..width]] + Chunks(flat[width..], width)
  }

  /** The foreign signature library. */
  datatype Lib = Lib(
    signatureOk: Bytes -> bool,
    digestOk: Bytes -> bool,
    keyOk: Bytes -> bool,
    verifyDigests: (Bytes, seq<Bytes>, seq<Bytes>) -> bool,
    verifyMessages: (Bytes, seq<Bytes>, seq<Bytes>) -> bool,
    aggregateAll: seq<Bytes> -> Option<Bytes>)

  predicate AllOk(ok: Bytes -> bool, items: seq<Bytes>) {
    forall i | 0 <= i < |items| :: ok(items[i])
  }

  function Verify(lib: Lib, signature: Bytes, flatDigests: Bytes, flatKeys: Bytes): bool {
    && lib.signatureOk(signature)
    && |flatDigests| % DIGEST_BYTES == 0
    && |flatKeys| % PUBLIC_KEY_BYTES == 0
    && |flatDigests| / DIGEST_BYTES == |flatKeys| / PUBLIC_KEY_BYTES
    && AllOk(lib.digestOk, Chunks(flatDigests, DIGEST_BYTES))
    && AllOk(lib.keyOk, Chunks(flatKeys, PUBLIC_KEY_BYTES))
    && lib.verifyDigests(signature, Chunks(flatDigests, DIGEST_BYTES), Chunks(flatKeys, PUBLIC_KEY_BYTES))
  }

  /** `None` is a panic. */
  function HashVerify(lib: Lib, signature: Bytes, flatMessages: Bytes, sizes: seq<nat>, flatKeys: Bytes): Option<bool> {
    if !lib.signatureOk(signature) then Some(false)
    else match SplitBy(flatMessages, sizes)
      case None => None
      case Some(messages) =>
        var keys := Chunks(flatKeys, PUBLIC_KEY_BYTES);
        Some(&& |flatKeys| % PUBLIC_KEY_BYTES == 0 && AllOk(lib.keyOk, keys)
             && lib.verifyMessages(signature, messages, keys))
  }

  function Aggregate(lib: Lib, flatSignatures: Bytes): Option<Bytes> {
    var signatures := Chunks(flatSignatures, SIGNATURE_BYTES);
    if AllOk(lib.signatureOk, signatures) then lib.aggregateAll(signatures) else None
  }

  // ---------------------------------------------------------------- across the bridge

  /** Pieces as `par_chunks` makes them: full but for the last, which may be shorter. */
  ghost predicate Pieces(items: seq<Bytes>, width: nat) {
    forall i | 0 <= i < |items| :: 0 < |items[i]| <= width && (i < |items| - 1 ==> |items[i]| == width)
  }

  lemma {:induction false} ChunksOfConcat(items: seq<Bytes>, width: nat)
    requires width > 0 && Pieces(items, width)
    ensures Chunks(Concat(items), width) == items
  {
    if items != [] {
      var flat, rest := Concat(items), Concat(items[1..]);
      ChunksOfConcat(items[1..], width);
      assert flat[..|items[0]|] == items[0] && flat[|items[0]|..] == rest;
      if |items| == 1 {
        assert items[1..] == [] && flat == items[0];
      } else {
        assert items[1..][0] == items[1];
        assert rest != [];
      }
    }
  }

  /** Chunking loses nothing: all pieces but the last have the full width. */
  lemma {:induction false} ChunksCover(flat: Bytes, width: nat)
    requires width > 0
    ensures Concat(Chunks(flat, width)) == flat
    ensures forall i | 0 <= i < |Chunks(flat, width)| - 1 :: |Chunks(flat, width)[i]| == width
    ensures forall i | 0 <= i < |Chunks(flat, width)| :: 0 < |Chunks(flat, width)[i]| <= width
  {
    if |flat| > width {
      ChunksCover(flat[width..], width);
      assert flat == flat[..width] + flat[width..];
    } else if flat != [] {
      assert Concat([flat]) == flat + Concat<byte>([]);
    }
  }

  /** The list is determined by the flat buffer and the sizes. */
  lemma {:induction false} SplitUnique(xs: seq<Bytes>, ys: seq<Bytes>)
    requires Concat(xs) == Concat(ys) && Sizes(xs) == Sizes(ys)
    ensures xs == ys
  {
    if xs != [] {
      assert Sizes(xs)[0] == |xs[0]| && Sizes(ys)[0] == |ys[0]|;
      assert xs[0] == Concat(xs)[..|xs[0]|] == ys[0];
      assert Concat(xs[1..]) == Concat(xs)[|xs[0]|..] == Concat(ys[1..]);
      assert Sizes(xs[1..]) == Sizes(xs)[1..] == Sizes(ys[1..]);
      SplitUnique(xs[1..], ys[1..]);
      assert xs == [xs[0]] + xs[1..] && ys == [ys[0]] + ys[1..];
    }
  }

  /** On buffers built by Go the length gates say: as many digests as keys; the lists arrive unchanged. */
  lemma {:induction false} VerifyAcross(lib: Lib, signature: Bytes, digests: seq<Bytes>, keys: seq<Bytes>)
    requires AllOfWidth(digests, 96) && AllOfWidth(keys, 48)
    ensures Verify(lib, signature, Concat(digests), Concat(keys)) <==>
            && lib.signatureOk(signature) && |digests| == |keys|
            && (forall i | 0 <= i < |digests| :: lib.digestOk(digests[i]))
            && (forall i | 0 <= i < |keys| :: lib.keyOk(keys[i]))
            && lib.verifyDigests(signature, digests, keys)
  {
    ConcatLen(digests, 96);
    ConcatLen(keys, 48);
    ChunksOfConcat(digests, 96);
    ChunksOfConcat(keys, 48);
  }

  /** A buffer of whole items is the concatenation of its chunks, all of full width. */
  lemma {:induction false} ChunksFull(flat: Bytes, width: nat)
    requires (width == 48 || width == 96) && |flat| % width == 0
    ensures AllOfWidth(Chunks(flat, width), width) && Concat(Chunks(flat, width)) == flat
  {
    ChunksCover(flat, width);
    if |flat| > width {
      ChunksFull(flat[width..], width);
    }
  }

  /** What verifies is made of whole digests and keys that the library verifies. */
  lemma {:induction false} VerifiedLists(lib: Lib, signature: Bytes, flatDigests: Bytes, flatKeys: Bytes)
    returns (digests: seq<Bytes>, keys: seq<Bytes>)
    requires Verify(lib, signature, flatDigests, flatKeys)
    ensures AllOfWidth(digests, 96) && AllOfWidth(keys, 48)
    ensures Concat(digests) == flatDigests && Concat(keys) == flatKeys
  {
    digests, keys := Chunks(flatDigests, 96), Chunks(flatKeys, 48);
    ChunksFull(flatDigests, 96);
    ChunksFull(flatKeys, 48);
  }

  /** For all buffers: verification succeeds exactly if they are made of lists that the library verifies. */
  lemma {:induction false} VerifyIff(lib: Lib, signature: Bytes, flatDigests: Bytes, flatKeys: Bytes)
    ensures Verify(lib, signature, flatDigests, flatKeys) <==>
            && lib.signatureOk(signature)
            && exists digests: seq<Bytes>, keys: seq<Bytes> ::
                 && AllOfWidth(digests, 96) && AllOfWidth(keys, 48)
                 && Concat(digests) == flatDigests && Concat(keys) == flatKeys && |digests| == |keys|
                 && (forall i | 0 <= i < |digests| :: lib.digestOk(digests[i]))
                 && (forall i | 0 <= i < |keys| :: lib.keyOk(keys[i]))
                 && lib.verifyDigests(signature, digests, keys)
  {
    if Verify(lib, signature, flatDigests, flatKeys) {
      var digests, keys := VerifiedLists(lib, signature, flatDigests, flatKeys);
      VerifyAcross(lib, signature, digests, keys);
    } else {
      hide Verify, AllOfWidth, Concat;
      forall digests: seq<Bytes>, keys: seq<Bytes>
        | AllOfWidth(digests, 96) && AllOfWidth(keys, 48) && Concat(digests) == flatDigests && Concat(keys) == flatKeys
        ensures !(&& lib.signatureOk(signature) && |digests| == |keys|
                  && (forall i | 0 <= i < |digests| :: lib.digestOk(digests[i]))
                  && (forall i | 0 <= i < |keys| :: lib.keyOk(keys[i]))
                  && lib.verifyDigests(signature, digests, keys))
      {
        VerifyAcross(lib, signature, digests, keys);
      }
    }
  }

  /**
    * Splitting never panics if the buffer starts with the messages of the given sizes, as Go's does;
    * the messages then arrive unchanged, whatever follows them.
    */
  lemma {:induction false} HashVerifyAcross(
    lib: Lib, signature: Bytes, messages: seq<Bytes>, rest: Bytes, keys: seq<Bytes>
  )
    requires AllOfWidth(keys, 48)
    ensures HashVerify(lib, signature, Concat(messages) + rest, Sizes(messages), Concat(keys)) ==
            Some(&& lib.signatureOk(signature)
                 && (forall i | 0 <= i < |keys| :: lib.keyOk(keys[i]))
                 && lib.verifyMessages(signature, messages, keys))
  {
    var flat := Concat(messages);
    SizesSum(messages, |messages|);
    assert messages[..|messages|] == messages;
    assert (flat + rest)[..|flat|] == flat;
    SplitUnique(SplitBy(flat + rest, Sizes(messages)).value, messages);
    ConcatLen(keys, 48);
    ChunksOfConcat(keys, 48);
  }

  /** Other buffers: a panic if the sizes exceed the messages, otherwise no success for a cut key. */
  lemma {:induction false} HashVerifyRefuses(lib: Lib, signature: Bytes, flat: Bytes, sizes: seq<nat>, flatKeys: Bytes)
    ensures HashVerify(lib, signature, flat, sizes, flatKeys).None? <==>
            lib.signatureOk(signature) && PrefixSum(sizes, |sizes|) > |flat|
    ensures HashVerify(lib, signature, flat, sizes, flatKeys) == Some(true) ==> |flatKeys| % 48 == 0
  {
    assert SplitBy(flat, sizes).Some? <==> PrefixSum(sizes, |sizes|) <= |flat|;
  }

  /** Any buffer is made of such pieces, which are full on Go's; all must decode. */
  lemma {:induction false} AggregateAcross(lib: Lib, signatures: seq<Bytes>)
    requires Pieces(signatures, 96)
    ensures Aggregate(lib, Concat(signatures)) ==
            if forall i | 0 <= i < |signatures| :: lib.signatureOk(signatures[i]) then lib.aggregateAll(signatures)
            else None
  {
    ChunksOfConcat(signatures, 96);
  }
}
