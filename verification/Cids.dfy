/**
  * Content identifiers on the wire: unsigned varints, multihashes and CIDs, as the `cid` crate writes
  * them and as Go's `cid.CidFromBytes` reads them (multiformats CID specification, "Decoding Algorithm").
  */
module Cids {
  import opened Common

  // ---------------------------------------------------------------- unsigned varints

  /** Seven bits a byte, least significant first, the high bit saying that more follows. */
  function WriteVarint(n: nat): (r: Bytes)
    ensures |r| > 0
  {
    if n < 128 then [n] else [n % 128 + 128] + WriteVarint(n / 128)
  }

  datatype Varint = Varint(value: nat, len: nat)

  /** Nine bytes at most, and the encoding must be the shortest one. `i` bytes were read before `s`. */
  function ReadVarint(s: Bytes, i: nat := 0): (r: Option<Varint>)
    ensures r.Some? ==> 0 < r.value.len <= |s|
    decreases |s|
  {
    if s == [] || i >= 9 || (i == 8 && s[0] >= 128) then None
    else if s[0] < 128 then
      if s[0] == 0 && i > 0 then None else Some(Varint(s[0], 1))
    else
      match ReadVarint(s[1..], i + 1)
      case None => None
      case Some(Varint(v, len)) => Some(Varint(s[0] - 128 + 128 * v, 1 + len))
  }

  function Pow128(k: nat): (r: nat)
    ensures r >= 1
  {
    if k == 0 then 1 else 128 * Pow128(k - 1)
  }

  /** The reader gives back what was written, whatever follows, exactly when nine bytes are enough. */
  lemma {:induction false} VarintRoundTrip(n: nat, s: Bytes, i: nat)
    requires i <= 9 && (i > 0 ==> n > 0)
    ensures ReadVarint(WriteVarint(n) + s, i)
         == if n < Pow128(9 - i) then Some(Varint(n, |WriteVarint(n)|)) else None
    decreases n
  {
    var w := WriteVarint(n);
    if i < 9 {
      assert Pow128(9 - i) == 128 * Pow128(8 - i);
      if n >= 128 {
        assert (w + s)[1..] == WriteVarint(n / 128) + s;
        VarintRoundTrip(n / 128, s, i + 1);
        assert Pow128(0) == 1;
      }
    }
  }

  /** Digit by digit: base 128, the lowest first, marked but for the last, with no zero at the end. */
  lemma {:induction false} VarintDigits(n: nat, i: nat)
    requires i < |WriteVarint(n)|
    ensures WriteVarint(n)[i] % 128 == (n / Pow128(i)) % 128
    ensures WriteVarint(n)[i] >= 128 <==> i < |WriteVarint(n)| - 1
    ensures i == |WriteVarint(n)| - 1 && i > 0 ==> WriteVarint(n)[i] > 0
    decreases n
  {
    if i == 0 {
      assert n / Pow128(0) == n;
    } else {
      VarintDigits(n / 128, i - 1);
      DivDiv(n, Pow128(i - 1));
      if i == |WriteVarint(n)| - 1 && i == 1 {
        assert WriteVarint(n / 128) == [n / 128];
      }
    }
  }

  lemma {:induction false} DivDiv(n: nat, p: nat)
    requires p > 0
    ensures n / 128 / p == n / (128 * p)
  {
    var q := n / 128 / p;
    var a, b := (n / 128) % p, n % 128;
    assert n / 128 == p * q + a;
    assert n == 128 * (p * q + a) + b == (128 * p) * q + (128 * a + b);
    assert 128 * a + b < 128 * p;
    QuotientUnique(n, 128 * p, q, 128 * a + b);
  }

  lemma {:induction false} QuotientUnique(n: nat, d: nat, q: nat, rest: nat)
    requires d > 0 && n == d * q + rest && rest < d
    ensures n / d == q
  {
    var k := n / d - q;
    assert n == d * (n / d) + n % d;
    assert d * k == rest - n % d;
    MultipleIsLarge(d, k);
  }

  lemma {:induction false} MultipleIsLarge(d: nat, k: int)
    requires d > 0
    ensures (k >= 1 ==> d * k >= d) && (k <= -1 ==> d * k <= 0 - d)
  {
  }

  /** Whatever reads as a number is the encoding of that number, which has at most 63 bits. */
  lemma {:induction false} ReadVarintSound(s: Bytes, i: nat)
    requires ReadVarint(s, i).Some?
    ensures var v, len := ReadVarint(s, i).value.value, ReadVarint(s, i).value.len;
            s[..len] == WriteVarint(v) && i <= 9 && v < Pow128(9 - i) && (i > 0 ==> v > 0)
    decreases |s|
  {
    if s[0] >= 128 {
      ReadVarintSound(s[1..], i + 1);
      var len := ReadVarint(s[1..], i + 1).value.len;
      assert s[..1 + len] == [s[0]] + s[1..][..len];
    }
  }

  lemma {:induction false} Pow128Nine()
    ensures Pow128(9) == TWO_63
  {
    assert Pow128(3) == 0x20_0000;
    assert Pow128(6) == 128 * 128 * 128 * Pow128(3);
    assert Pow128(9) == 128 * 128 * 128 * Pow128(6);
  }

  lemma {:induction false} VarintLen(n: nat, k: nat)
    requires n < Pow128(k) && k > 0
    ensures |WriteVarint(n)| <= k
  {
    if n >= 128 {
      assert Pow128(k) == 128 * Pow128(k - 1);
      assert Pow128(0) == 1;
      VarintLen(n / 128, k - 1);
    }
  }

  lemma {:induction false} VarintInjective(m: nat, n: nat, s: Bytes, t: Bytes)
    requires WriteVarint(m) + s == WriteVarint(n) + t
    ensures m == n && s == t
    decreases m
  {
    var a, b := WriteVarint(m) + s, WriteVarint(n) + t;
    assert a[0] == b[0];
    if m >= 128 {
      assert a[1..] == WriteVarint(m / 128) + s;
      assert b[1..] == WriteVarint(n / 128) + t;
      VarintInjective(m / 128, n / 128, s, t);
    } else {
      assert a[1..] == s && b[1..] == t;
    }
  }

  // ---------------------------------------------------------------- CIDs

  const SHA2_256: nat := 0x12
  const MAX_INT32: nat := 0x7FFF_FFFF

  datatype Multihash = Multihash(code: u64, digest: Bytes)

  datatype RawCid = V0(hash: Multihash) | V1(codec: u64, hash: Multihash)

  /** A version-0 CID is always a SHA2-256 hash; digests hold at most 64 bytes. */
  predicate ValidCid(c: RawCid) {
    && |c.hash.digest| <= 64
    && (c.V0? ==> c.hash.code == SHA2_256 && |c.hash.digest| == 32)
  }

  type Cid = c: RawCid | ValidCid(c) witness V1(0, Multihash(0, []))

  function WriteMultihash(h: Multihash): Bytes {
    WriteVarint(h.code) + WriteVarint(|h.digest|) + h.digest
  }

  function WriteCid(c: RawCid): (r: Bytes)
    ensures |r| > 0
  {
    if c.V0? then WriteMultihash(c.hash)
    else WriteVarint(1) + WriteVarint(c.codec) + WriteMultihash(c.hash)
  }

  /** The number of bytes a multihash takes at the front of `s`. */
  function ReadMultihash(s: Bytes): (r: Option<nat>)
    ensures r.Some? ==> r.value <= |s|
  {
    var code := ReadVarint(s);
    if code.None? then None else
    var s1 := s[code.value.len..];
    var len := ReadVarint(s1);
    if len.None? then None else
    var s2 := s1[len.value.len..];
    if len.value.value > MAX_INT32 || len.value.value > |s2| then None
    else Some(code.value.len + len.value.len + len.value.value)
  }

  /** The number of bytes a codec and a multihash take at the front of `s`. */
  function ReadCodecAndHash(s: Bytes): (r: Option<nat>)
    ensures r.Some? ==> r.value <= |s|
  {
    var codec := ReadVarint(s);
    if codec.None? then None else
    var mh := ReadMultihash(s[codec.value.len..]);
    if mh.None? then None else Some(codec.value.len + mh.value)
  }

  /** The number of bytes a CID takes at the front of `s`; Go keeps those bytes as the CID. */
  function ReadCid(s: Bytes): (r: Option<nat>)
    ensures r.Some? ==> r.value <= |s|
  {
    if |s| > 2 && s[0] == SHA2_256 && s[1] == 32 then
      if |s| < 34 then None else Some(34)
    else
      var vers := ReadVarint(s);
      if vers.None? || vers.value.value != 1 then None else
      var rest := ReadCodecAndHash(s[vers.value.len..]);
      if rest.None? then None else Some(vers.value.len + rest.value)
  }

  /** Go's varints stop at 63 bits; Rust writes all of a u64. */
  predicate Readable(c: Cid) {
    c.V0? || (c.codec < TWO_63 && c.hash.code < TWO_63)
  }

  lemma {:induction false} SmallVarint(n: nat, s: Bytes)
    requires n < 128
    ensures WriteVarint(n) == [n] && ReadVarint([n] + s) == Some(Varint(n, 1))
  {
  }

  lemma {:induction false} MultihashRoundTrip(h: Multihash, s: Bytes)
    requires |h.digest| <= MAX_INT32
    ensures ReadMultihash(WriteMultihash(h) + s)
         == if h.code < TWO_63 then Some(|WriteMultihash(h)|) else None
  {
    Pow128Nine();
    hide Pow128, WriteVarint, ReadVarint;
    var all := WriteMultihash(h) + s;
    var w, s2 := WriteVarint(|h.digest|), h.digest + s;
    assert all == WriteVarint(h.code) + (w + s2);
    VarintRoundTrip(h.code, w + s2, 0);
    if h.code < TWO_63 {
      assert all[|WriteVarint(h.code)|..] == w + s2;
      VarintRoundTrip(|h.digest|, s2, 0);
      assert (w + s2)[|w|..] == s2;
    }
  }

  lemma {:induction false} CidV0RoundTrip(c: RawCid, s: Bytes)
    requires c.V0? && c.hash.code == 0x12 && |c.hash.digest| == 32
    ensures ReadCid(WriteCid(c) + s) == Some(|WriteCid(c)|)
  {
    SmallVarint(SHA2_256, []);
    SmallVarint(32, []);
    assert WriteCid(c) == [SHA2_256, 32] + c.hash.digest;
  }

  lemma {:induction false} ReadAfterVersion(s: Bytes)
    ensures ReadCid([1] + s)
         == var rest := ReadCodecAndHash(s); if rest.None? then None else Some(1 + rest.value)
  {
    var all := [1] + s;
    assert ReadVarint(all) == Some(Varint(1, 1)) by { SmallVarint(1, s); }
    assert all[1..] == s;
    assert all[0] != SHA2_256;
  }

  lemma {:induction false} CidV1RoundTrip(c: RawCid, s: Bytes)
    requires c.V1? && |c.hash.digest| <= 0x7FFF_FFFF
    ensures ReadCid(WriteCid(c) + s)
         == if c.codec < TWO_63 && c.hash.code < TWO_63 then Some(|WriteCid(c)|) else None
  {
    Pow128Nine();
    hide Pow128, ReadCid, ReadMultihash;
    SmallVarint(1, []);
    var w, mh := WriteVarint(c.codec), WriteMultihash(c.hash);
    assert WriteCid(c) + s == [1] + (w + (mh + s));
    ReadAfterVersion(w + (mh + s));
    VarintRoundTrip(c.codec, mh + s, 0);
    assert (w + (mh + s))[|w|..] == mh + s;
    MultihashRoundTrip(c.hash, s);
  }

  /**
    * CIDs are a prefix code for the reader: whatever follows, it finds the end of a written CID,
    * except that it rejects a CID with a codec or hash code of 64 bits.
    */
  lemma {:induction false} CidRoundTrip(c: Cid, s: Bytes)
    ensures ReadCid(WriteCid(c) + s) == if Readable(c) then Some(|WriteCid(c)|) else None
  {
    if c.V0? {
      CidV0RoundTrip(c, s);
    } else {
      CidV1RoundTrip(c, s);
    }
  }

  /** The bytes of a CID as the specification gives them. */
  lemma {:induction false} CidBytes(c: Cid)
    ensures c.V0? ==> WriteCid(c) == [0x12, 0x20] + c.hash.digest
    ensures c.V1? ==>
              WriteCid(c) == [1] + WriteVarint(c.codec) + WriteVarint(c.hash.code) + [|c.hash.digest|] + c.hash.digest
  {
    SmallVarint(|c.hash.digest|, []);
    SmallVarint(1, []);
    SmallVarint(0x12, []);
  }

  lemma {:induction false} PrefixPair(s: Bytes, a: nat, b: nat)
    requires a + b <= |s|
    ensures s[..a + b] == s[..a] + s[a..][..b]
  {
  }

  lemma {:induction false} DropDrop(s: Bytes, a: nat, b: nat)
    requires a + b <= |s|
    ensures s[a..][b..] == s[a + b..]
  {
  }

  /** What reads as a multihash is the encoding of one. */
  lemma {:induction false} ReadMultihashSound(s: Bytes) returns (h: Multihash)
    requires ReadMultihash(s).Some?
    ensures ReadMultihash(s) == Some(|WriteMultihash(h)|) && s[..|WriteMultihash(h)|] == WriteMultihash(h)
    ensures h.code < TWO_63 && |h.digest| <= 0x7FFF_FFFF
  {
    Pow128Nine();
    hide Pow128, WriteVarint, ReadVarint;
    ReadVarintSound(s, 0);
    var code, a := ReadVarint(s).value.value, ReadVarint(s).value.len;
    ReadVarintSound(s[a..], 0);
    var len, b := ReadVarint(s[a..]).value.value, ReadVarint(s[a..]).value.len;
    DropDrop(s, a, b);
    h := Multihash(code, s[a + b..][..len]);
    hide ReadMultihash;
    PrefixPair(s, a, b);
    PrefixPair(s, a + b, len);
  }

  /** Whatever reads as a CID is the encoding of one: version 0 or 1, with codes of at most 63 bits. */
  lemma {:induction false} ReadCidSound(s: Bytes) returns (c: RawCid)
    requires ReadCid(s).Some?
    ensures ReadCid(s) == Some(|WriteCid(c)|) && s[..|WriteCid(c)|] == WriteCid(c)
    ensures c.hash.code < TWO_63 && |c.hash.digest| <= 0x7FFF_FFFF
    ensures if c.V0? then c.hash.code == 0x12 && |c.hash.digest| == 32 else c.codec < TWO_63
  {
    SmallVarint(SHA2_256, []);
    SmallVarint(32, []);
    if |s| > 2 && s[0] == SHA2_256 && s[1] == 32 {
      c := V0(Multihash(SHA2_256, s[2..34]));
      assert s[..34] == [SHA2_256] + [32] + s[2..34];
    } else {
      hide WriteVarint, ReadVarint, ReadMultihash, WriteMultihash, Pow128;
      c := ReadV1Sound(s);
    }
  }

  lemma {:induction false} ReadCodecAndHashSound(s: Bytes) returns (codec: nat, h: Multihash)
    requires ReadCodecAndHash(s).Some?
    ensures var w := WriteVarint(codec) + WriteMultihash(h); ReadCodecAndHash(s) == Some(|w|) && s[..|w|] == w
    ensures codec < TWO_63 && h.code < TWO_63 && |h.digest| <= 0x7FFF_FFFF
  {
    ReadVarintSound(s, 0);
    Pow128Nine();
    hide WriteVarint, ReadVarint, ReadMultihash, WriteMultihash, Pow128;
    codec := ReadVarint(s).value.value;
    var n := ReadVarint(s).value.len;
    h := ReadMultihashSound(s[n..]);
    PrefixPair(s, n, |WriteMultihash(h)|);
  }

  lemma {:induction false} ReadV1Sound(s: Bytes) returns (c: RawCid)
    requires ReadCid(s).Some? && !(|s| > 2 && s[0] == SHA2_256 && s[1] == 32)
    ensures ReadCid(s) == Some(|WriteCid(c)|) && s[..|WriteCid(c)|] == WriteCid(c)
    ensures c.V1? && c.hash.code < TWO_63 && c.codec < TWO_63 && |c.hash.digest| <= 0x7FFF_FFFF
  {
    ReadVarintSound(s, 0);
    hide WriteVarint, ReadVarint, ReadCodecAndHash, WriteMultihash;
    var n := ReadVarint(s).value.len;
    var codec, h := ReadCodecAndHashSound(s[n..]);
    c := V1(codec, h);
    AppendAssoc(WriteVarint(1), WriteVarint(codec), WriteMultihash(h));
    PrefixPair(s, n, |WriteVarint(codec) + WriteMultihash(h)|);
  }

  /**
    * Exactly what Go takes for a CID at the front of a buffer: the encodings of version 0 with a
    * SHA2-256 hash and of version 1 with codes of at most 63 bits and any digest.
    */
  lemma {:induction false} ReadCidIff(s: Bytes, n: nat)
    ensures ReadCid(s) == Some(n) <==>
            exists c: RawCid ::
              && WriteCid(c) <= s && |WriteCid(c)| == n
              && c.hash.code < 0x8000_0000_0000_0000 && |c.hash.digest| <= 0x7FFF_FFFF
              && (if c.V0? then c.hash.code == 0x12 && |c.hash.digest| == 32 else c.codec < 0x8000_0000_0000_0000)
  {
    hide ReadCid, WriteCid;
    if ReadCid(s) == Some(n) {
      var c := ReadCidSound(s);
      assert WriteCid(c) <= s;
    }
    forall c: RawCid
      | WriteCid(c) <= s && |WriteCid(c)| == n && c.hash.code < TWO_63 && |c.hash.digest| <= 0x7FFF_FFFF
        && (if c.V0? then c.hash.code == 0x12 && |c.hash.digest| == 32 else c.codec < TWO_63)
      ensures ReadCid(s) == Some(n)
    {
      assert s == WriteCid(c) + s[n..];
      if c.V0? {
        CidV0RoundTrip(c, s[n..]);
      } else {
        CidV1RoundTrip(c, s[n..]);
      }
    }
  }

  lemma {:induction false} ReadVarintExtends(s: Bytes, t: Bytes, i: nat)
    requires ReadVarint(s, i).Some?
    ensures ReadVarint(s + t, i) == ReadVarint(s, i)
    decreases |s|
  {
    if s[0] >= 128 {
      assert (s + t)[1..] == s[1..] + t;
      ReadVarintExtends(s[1..], t, i + 1);
    }
  }

  lemma {:induction false} ReadMultihashExtends(s: Bytes, t: Bytes)
    requires ReadMultihash(s).Some?
    ensures ReadMultihash(s + t) == ReadMultihash(s)
  {
    ReadVarintExtends(s, t, 0);
    var s1 := s[ReadVarint(s).value.len..];
    assert (s + t)[ReadVarint(s).value.len..] == s1 + t;
    ReadVarintExtends(s1, t, 0);
  }

  lemma {:induction false} ReadCodecAndHashExtends(s: Bytes, t: Bytes)
    requires ReadCodecAndHash(s).Some?
    ensures ReadCodecAndHash(s + t) == ReadCodecAndHash(s)
  {
    ReadVarintExtends(s, t, 0);
    var n := ReadVarint(s).value.len;
    assert (s + t)[n..] == s[n..] + t;
    ReadMultihashExtends(s[n..], t);
  }

  /** More bytes do not change what the reader finds. */
  lemma {:induction false} ReadCidExtends(s: Bytes, t: Bytes)
    requires ReadCid(s).Some?
    ensures ReadCid(s + t) == ReadCid(s)
  {
    hide ReadCodecAndHash;
    if !(|s| > 2 && s[0] == SHA2_256 && s[1] == 32) {
      ReadVarintExtends(s, t, 0);
      var n := ReadVarint(s).value.len;
      assert (s + t)[n..] == s[n..] + t;
      ReadCodecAndHashExtends(s[n..], t);
      assert (s + t)[0] == s[0];
    }
  }

  /** No part of a CID reads as a CID. */
  lemma {:induction false} CutCidUnreadable(c: Cid, n: nat)
    requires n < |WriteCid(c)|
    ensures ReadCid(WriteCid(c)[..n]).None?
  {
    hide ReadCid, WriteCid;
    var w := WriteCid(c);
    if ReadCid(w[..n]).Some? {
      ReadCidExtends(w[..n], w[n..]);
      assert w[..n] + w[n..] == w + [];
      CidRoundTrip(c, []);
    }
  }

  /** The estimate used when filling a batch is an upper bound for every CID. */
  lemma {:induction false} CidLen(c: Cid)
    ensures 4 <= |WriteCid(c)| <= 86
  {
    Pow128Nine();
    assert Pow128(10) == 128 * Pow128(9);
    VarintLen(c.hash.code, 10);
    SmallVarint(|c.hash.digest|, []);
    SmallVarint(1, []);
    if c.V1? {
      VarintLen(c.codec, 10);
    }
  }

  /** Distinct CIDs never have the same bytes. */
  lemma {:induction false} CidInjective(c: Cid, d: Cid)
    requires WriteCid(c) == WriteCid(d)
    ensures c == d
  {
    assert WriteCid(c) + [] == WriteCid(d) + [];
    SmallVarint(1, []);
    SmallVarint(SHA2_256, []);
    assert WriteCid(c)[0] == WriteCid(d)[0];
    if c.V1? && d.V1? {
      var s, t := WriteVarint(c.codec) + WriteMultihash(c.hash), WriteVarint(d.codec) + WriteMultihash(d.hash);
      VarintInjective(1, 1, s, t) by {
        assert WriteCid(c) == WriteVarint(1) + s && WriteCid(d) == WriteVarint(1) + t;
      }
      VarintInjective(c.codec, d.codec, WriteMultihash(c.hash), WriteMultihash(d.hash));
      MultihashInjective(c.hash, d.hash);
    } else {
      assert WriteVarint(1)[0] == 1;
      assert c.V0? && d.V0?;
      MultihashInjective(c.hash, d.hash);
    }
  }

  lemma {:induction false} MultihashInjective(g: Multihash, h: Multihash)
    requires WriteMultihash(g) == WriteMultihash(h)
    ensures g == h
  {
    var s, t := WriteVarint(|g.digest|) + g.digest, WriteVarint(|h.digest|) + h.digest;
    assert WriteMultihash(g) == WriteVarint(g.code) + s;
    assert WriteMultihash(h) == WriteVarint(h.code) + t;
    VarintInjective(g.code, h.code, s, t);
    VarintInjective(|g.digest|, |h.digest|, g.digest, h.digest);
  }
}
