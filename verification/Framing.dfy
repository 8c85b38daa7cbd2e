/**
  * The bytes that cross from Rust to Go: a block travels as a frame (its CID, then its data), and a
  * batch as the frames one after the other with the list of their lengths.
  */
module Framing {
  import opened Common
  import opened Cids

  datatype Block = Block(cid: Cid, data: Bytes)

  /** What a blockstore is asked to keep: data under the bytes of a CID. */
  datatype Entry = Entry(key: Bytes, data: Bytes)

  const MAX_LEN: nat := TWO_30

  // The error codes of rust/src/fvm/cgo/error.rs.
  const INVALID_HANDLE: int := -1
  const NOT_FOUND: int := -2
  const IO: int := -3
  const INVALID_ARGUMENT: int := -4
  const PANIC: int := -5

  /** The cast of a size to a 32-bit signed integer. */
  function AsI32(n: nat): (r: int)
    ensures 0 - 0x8000_0000 <= r < 0x8000_0000 && (n - r) % 0x1_0000_0000 == 0
    ensures r <= n && (r == n <==> n < 0x8000_0000)
  {
    var low := n % TWO_32;
    if low < TWO_31 then low else low - TWO_32
  }

  /** If a prefix fits into the cast size of the whole, the cast size of the rest is what remains. */
  lemma {:induction false} CastAfterPrefix(k: nat, m: nat)
    requires k <= AsI32(k + m)
    ensures AsI32(m) == AsI32(k + m) - k
  {
    var q, r := (k + m) / TWO_32, AsI32(k + m);
    assert m == q * TWO_32 + (r - k);
    assert m % TWO_32 == r - k;
  }

  /** The part of some data that goes through under a 32-bit length; nothing for a negative length. */
  function Cut(data: Bytes): Option<Bytes> {
    if AsI32(|data|) < 0 then None else Some(data[..AsI32(|data|)])
  }

  /** All of it goes through exactly below 2^31 bytes, and what went through once goes through again. */
  lemma {:induction false} CutIff(data: Bytes)
    ensures Cut(data) == Some(data) <==> |data| < TWO_31
    ensures Cut(data).Some? ==> |Cut(data).value| < TWO_31 && Cut(Cut(data).value) == Cut(data)
  {
    if |data| < TWO_31 {
      assert data[..|data|] == data;
    }
    if Cut(data).Some? {
      var part := Cut(data).value;
      assert part[..|part|] == part;
    }
  }

  // ---------------------------------------------------------------- the writer

  function Frame(b: Block): Bytes {
    WriteCid(b.cid) + b.data
  }

  /** The length that is sent along with a frame. */
  function FrameLength(b: Block): int {
    AsI32(|Frame(b)|)
  }

  function Frames(bs: seq<Block>): Bytes {
    Concat(MapSeq(Frame, bs))
  }

  function Lengths(bs: seq<Block>): seq<int> {
    MapSeq(FrameLength, bs)
  }

  lemma {:induction false} BatchSnoc(bs: seq<Block>, b: Block)
    ensures Frames(bs + [b]) == Frames(bs) + Frame(b)
    ensures Lengths(bs + [b]) == Lengths(bs) + [FrameLength(b)]
  {
    hide WriteCid;
    MapAppend(Frame, bs, [b]);
    MapAppend(FrameLength, bs, [b]);
    assert MapSeq(Frame, [b]) == [Frame(b)] && MapSeq(FrameLength, [b]) == [FrameLength(b)];
    ConcatSnoc(MapSeq(Frame, bs), Frame(b));
  }

  lemma {:induction false} BatchCons(bs: seq<Block>)
    requires bs != []
    ensures Frames(bs) == Frame(bs[0]) + Frames(bs[1..]) && |Frames(bs)| > 0
    ensures Lengths(bs)[0] == FrameLength(bs[0]) && Lengths(bs)[1..] == Lengths(bs[1..])
  {
    assert |Frame(bs[0])| > 0;
    hide WriteCid;
    assert MapSeq(Frame, bs)[1..] == MapSeq(Frame, bs[1..]);
  }

  // ---------------------------------------------------------------- the reader

  /** One turn of the decoding loop: the frame of the given length at the front of `buf`. */
  function DecodeOne(length: int, buf: Bytes): (r: Result<Entry, int>)
    requires length <= |buf|
    ensures r.Ok? ==> 0 <= length <= 0x4000_0000 && r.value.key + r.value.data == buf[..length]
    ensures r.Err? ==> r.error == if length < 0 then -5 else -4
  {
    if length > MAX_LEN then Err(INVALID_ARGUMENT)
    else if length < 0 then Err(PANIC)
    else
      var frame := buf[..length];
      match ReadCid(frame)
      case None => Err(INVALID_ARGUMENT)
      case Some(n) =>
        assert frame[..n] + frame[n..] == frame;
        Ok(Entry(frame[..n], frame[n..]))
  }

  /** The part of the buffer that lengths claim. */
  function Extent(lengths: seq<int>): nat {
    if lengths == [] then 0 else (if lengths[0] < 0 then 0 else lengths[0]) + Extent(lengths[1..])
  }

  function DecodeAll(lengths: seq<int>, buf: Bytes): (r: Result<seq<Entry>, int>)
    requires Extent(lengths) <= |buf|
    ensures r.Err? ==> r.error == INVALID_ARGUMENT || r.error == PANIC
  {
    if lengths == [] then Ok([])
    else match DecodeOne(lengths[0], buf)
      case Err(e) => Err(e)
      case Ok(entry) =>
        match DecodeAll(lengths[1..], buf[lengths[0]..])
        case Err(e) => Err(e)
        case Ok(entries) => Ok([entry] + entries)
  }

  ghost predicate ReadsAt(lengths: seq<int>, buf: Bytes, i: nat, e: Entry)
    requires i < |lengths|
  {
    var lo, hi := PrefixSum(lengths, i), PrefixSum(lengths, i + 1);
    && 0 <= lo <= hi <= |buf| && lengths[i] <= MAX_LEN
    && ReadCid(buf[lo..hi]) == Some(|e.key|)
    && e.key + e.data == buf[lo..hi]
  }

  /** All or nothing: an accepted batch has an entry for every frame, read at that frame's offset. */
  lemma {:induction false} DecodeAllAt(lengths: seq<int>, buf: Bytes, i: nat)
    requires Extent(lengths) <= |buf| && DecodeAll(lengths, buf).Ok? && i < |lengths|
    ensures |DecodeAll(lengths, buf).value| == |lengths|
    ensures ReadsAt(lengths, buf, i, DecodeAll(lengths, buf).value[i])
  {
    hide ReadCid;
    var n := lengths[0];
    var entries := DecodeAll(lengths, buf).value;
    if |lengths| > 1 {
      DecodeAllAt(lengths[1..], buf[n..], if i == 0 then 0 else i - 1);
    }
    if i == 0 {
      assert buf[0..n] == buf[..n];
    } else {
      assert entries[i] == DecodeAll(lengths[1..], buf[n..]).value[i - 1];
      ReadsAtShift(lengths, buf, i, entries[i]);
    }
  }

  lemma {:induction false} ReadsAtShift(lengths: seq<int>, buf: Bytes, i: nat, e: Entry)
    requires 0 < i < |lengths| && 0 <= lengths[0] <= |buf|
    requires ReadsAt(lengths[1..], buf[lengths[0]..], i - 1, e)
    ensures ReadsAt(lengths, buf, i, e)
  {
    hide ReadCid;
    var n, lo := lengths[0], PrefixSum(lengths[1..], i - 1);
    PrefixSumShift(lengths, i);
    PrefixSumShift(lengths, i + 1);
    SliceShift(buf, n, lo, lo + lengths[i]);
  }

  /** Frame `i` is in the buffer, not too long, and starts with a CID. */
  ghost predicate GoodFrame(lengths: seq<int>, buf: Bytes, i: nat)
    requires i < |lengths|
  {
    var lo, hi := PrefixSum(lengths, i), PrefixSum(lengths, i + 1);
    0 <= lo <= hi <= |buf| && lengths[i] <= MAX_LEN && ReadCid(buf[lo..hi]).Some?
  }

  lemma {:induction false} GoodFrameShift(lengths: seq<int>, buf: Bytes, i: nat)
    requires 0 < i < |lengths| && 0 <= lengths[0] <= |buf|
    requires GoodFrame(lengths, buf, i) && PrefixSum(lengths[1..], i - 1) >= 0
    ensures GoodFrame(lengths[1..], buf[lengths[0]..], i - 1)
  {
    hide ReadCid;
    var n, lo := lengths[0], PrefixSum(lengths[1..], i - 1);
    PrefixSumShift(lengths, i);
    PrefixSumShift(lengths, i + 1);
    SliceShift(buf, n, lo, lo + lengths[i]);
  }

  /** A batch is refused, all of it, if and only if some frame is bad. */
  lemma {:induction false} DecodeAllIff(lengths: seq<int>, buf: Bytes)
    requires Extent(lengths) <= |buf|
    ensures DecodeAll(lengths, buf).Ok? <==> forall i | 0 <= i < |lengths| :: GoodFrame(lengths, buf, i)
  {
    hide ReadCid;
    if DecodeAll(lengths, buf).Ok? {
      forall i | 0 <= i < |lengths| ensures GoodFrame(lengths, buf, i) {
        DecodeAllAt(lengths, buf, i);
      }
    } else if forall i | 0 <= i < |lengths| :: GoodFrame(lengths, buf, i) {
      GoodFramesDecode(lengths, buf);
    }
  }

  lemma {:induction false} GoodFramesDecode(lengths: seq<int>, buf: Bytes)
    requires Extent(lengths) <= |buf| && forall i | 0 <= i < |lengths| :: GoodFrame(lengths, buf, i)
    ensures DecodeAll(lengths, buf).Ok?
  {
    hide ReadCid;
    if lengths != [] {
      var n := lengths[0];
      assert GoodFrame(lengths, buf, 0);
      assert buf[0..n] == buf[..n];
      forall i | 0 <= i < |lengths[1..]| ensures GoodFrame(lengths[1..], buf[n..], i) {
        forall j | 0 <= j < i ensures 0 <= lengths[1..][j] {
          assert GoodFrame(lengths, buf, j + 1);
        }
        assert GoodFrame(lengths, buf, i + 1);
        GoodFrameShift(lengths, buf, i + 1);
      }
      GoodFramesDecode(lengths[1..], buf[n..]);
    }
  }

  // ---------------------------------------------------------------- reader after writer

  /** What Go makes of the frame of one block. */
  function Received(b: Block): Result<Entry, int> {
    DecodeOne(AsI32(|Frame(b)|), Frame(b))
  }

  function ReceiveAll(bs: seq<Block>): Result<seq<Entry>, int> {
    Collect(MapSeq(Received, bs))
  }

  lemma {:induction false} ReceiveAllAppend(bs: seq<Block>, cs: seq<Block>)
    ensures ReceiveAll(bs + cs).Ok? <==> ReceiveAll(bs).Ok? && ReceiveAll(cs).Ok?
    ensures ReceiveAll(bs + cs).Ok? ==> ReceiveAll(bs + cs).value == ReceiveAll(bs).value + ReceiveAll(cs).value
  {
    MapAppend(Received, bs, cs);
    CollectAppend(MapSeq(Received, bs), MapSeq(Received, cs));
  }

  /** Lengths survive the cast, or there is only one of them. */
  ghost predicate Carriable(bs: seq<Block>) {
    |bs| <= 1 || forall i | 0 <= i < |bs| :: |Frame(bs[i])| < TWO_31
  }

  lemma {:induction false} DecodeOnePrefix(length: int, s: Bytes, t: Bytes)
    requires length <= |s|
    ensures DecodeOne(length, s + t) == DecodeOne(length, s)
  {
    if 0 <= length {
      assert (s + t)[..length] == s[..length];
    }
  }

  /** Go stays inside the buffer of a batch and reads each block as if it came alone. */
  lemma {:induction false} DecodeWritten(bs: seq<Block>)
    requires Carriable(bs)
    ensures Extent(Lengths(bs)) <= |Frames(bs)|
    ensures DecodeAll(Lengths(bs), Frames(bs)) == ReceiveAll(bs)
  {
    hide WriteCid, ReadCid;
    if bs != [] {
      var frame, rest, lens := Frame(bs[0]), Frames(bs[1..]), Lengths(bs[1..]);
      DecodeWritten(bs[1..]);
      assert MapSeq(Received, bs)[1..] == MapSeq(Received, bs[1..]);
      var n := AsI32(|frame|);
      BatchCons(bs);
      DecodeOnePrefix(n, frame, rest);
      if |bs| == 1 {
        assert lens == [];
      } else {
        assert n == |frame|;
        assert Frames(bs)[n..] == rest;
      }
    }
  }

  // ---------------------------------------------------------------- when a block arrives intact

  predicate Intact(b: Block) {
    Received(b) == Ok(Entry(WriteCid(b.cid), b.data))
  }

  /** The CID is readable, and the length that Go is told covers it and is at most 2^30. */
  predicate Accepted(b: Block) {
    Readable(b.cid) && |WriteCid(b.cid)| <= FrameLength(b) <= MAX_LEN
  }

  /** Go takes exactly the accepted frames; it then keeps the data up to the length it is told. */
  lemma {:induction false} ReceivedExactly(b: Block)
    ensures Received(b).Ok? <==> Accepted(b)
    ensures Received(b).Ok? ==>
              Received(b).value == Entry(WriteCid(b.cid), b.data[..FrameLength(b) - |WriteCid(b.cid)|])
  {
    var n, w := FrameLength(b), WriteCid(b.cid);
    if 0 <= n <= MAX_LEN {
      if n < |w| {
        assert Frame(b)[..n] == w[..n];
        CutCidUnreadable(b.cid, n);
      } else {
        assert Frame(b)[..n] == w + b.data[..n - |w|];
        CidRoundTrip(b.cid, b.data[..n - |w|]);
      }
    }
  }

  /** A block arrives intact if and only if its CID is readable and its frame is at most 2^30 bytes. */
  lemma {:induction false} IntactIff(b: Block)
    ensures Intact(b) <==> Readable(b.cid) && |Frame(b)| <= 0x4000_0000
  {
    ReceivedExactly(b);
    var n, k := AsI32(|Frame(b)|), |WriteCid(b.cid)|;
    assert |Frame(b)| == k + |b.data|;
    if Intact(b) {
      assert |b.data[..n - k]| == n - k;
    } else if |Frame(b)| <= MAX_LEN {
      assert b.data[..n - k] == b.data;
    }
  }

  /** From 2^32 bytes on, the length wraps and a block can be taken without its data. */
  lemma {:induction false} LargeBlockLosesData(c: Cid, data: Bytes)
    requires Readable(c) && |data| == TWO_32
    ensures Received(Block(c, data)) == Ok(Entry(WriteCid(c), []))
  {
    var b := Block(c, data);
    CidLen(c);
    assert |Frame(b)| % TWO_32 == |WriteCid(c)|;
    ReceivedExactly(b);
    assert b.data[..0] == [];
  }

  function Entries(bs: seq<Block>): seq<Entry> {
    seq(|bs|, i requires 0 <= i < |bs| => Entry(WriteCid(bs[i].cid), bs[i].data))
  }

  /**
    * A list of blocks arrives without loss, repetition or reordering exactly when each block is intact,
    * that is, has a readable CID and a frame of at most 2^30 bytes.
    */
  lemma {:induction false} AllIntact(bs: seq<Block>)
    ensures ReceiveAll(bs) == Ok(Entries(bs)) <==> forall i | 0 <= i < |bs| :: Intact(bs[i])
    ensures (forall i | 0 <= i < |bs| :: Intact(bs[i]))
       <==> forall i | 0 <= i < |bs| :: Readable(bs[i].cid) && |Frame(bs[i])| <= 0x4000_0000
  {
    hide WriteCid, ReadCid;
    forall i | 0 <= i < |bs| ensures Intact(bs[i]) <==> Readable(bs[i].cid) && |Frame(bs[i])| <= MAX_LEN {
      IntactIff(bs[i]);
    }
    if ReceiveAll(bs) == Ok(Entries(bs)) {
      forall i | 0 <= i < |bs| ensures Intact(bs[i]) {
        assert Entries(bs)[i] == Received(bs[i]).value;
      }
    }
    if forall i | 0 <= i < |bs| :: Intact(bs[i]) {
      assert ReceiveAll(bs).value == Entries(bs);
    }
  }
}
