/**
  * The blockstore that Rust sees and the Go code behind it: rust/src/fvm/blockstore/cgo.rs calling
  * cgo/blockstore.go.
  */
module CgoBlockstores {
  import opened Common
  import opened Cids
  import opened Framing
  import opened Batching
  import opened Registries

  /** What a Rust call ends with; `Overrun` is a vector that claims more bytes than its buffer has. */
  datatype Outcome<+T> = Done(value: T) | Failed(code: int) | Panicked | Overrun

  /** A store after writes in order; a later write of a key replaces an earlier one. */
  function Written(m: map<Bytes, Bytes>, log: seq<Entry>): map<Bytes, Bytes> {
    if log == [] then m
    else var last := log[|log| - 1]; Written(m, log[..|log| - 1])[last.key := last.data]
  }

  lemma {:induction false} WrittenAppend(m: map<Bytes, Bytes>, a: seq<Entry>, b: seq<Entry>)
    ensures Written(m, a + b) == Written(Written(m, a), b)
  {
    if b == [] {
      assert a + b == a;
    } else {
      var n := |b| - 1;
      assert (a + b)[..|a + b| - 1] == a + b[..n] && (a + b)[|a + b| - 1] == b[n];
      WrittenAppend(m, a, b[..n]);
    }
  }

  // ---------------------------------------------------------------- the Go side

  /** How many of the first `n` writes are refused. */
  function Refused(accepts: nat -> bool, n: nat): nat {
    if n == 0 then 0 else Refused(accepts, n - 1) + (if accepts(n - 1) then 0 else 1)
  }

  /** The arguments of one put_many call. */
  datatype Call = Call(lengths: seq<int>, buf: Bytes)

  /** The client's store behind one handle, and the exported functions that reach it. */
  class GoStore {
    const registry: Registry
    const handle: u64
    var blocks: map<Bytes, Bytes>
    ghost const initial: map<Bytes, Bytes>
    /** Every entry written, in order. */
    ghost var log: seq<Entry>
    /** Whether the client's store takes a write, by its number; how many it was asked, and refused. */
    const accepts: nat -> bool
    var writes: nat
    ghost var faults: nat
    /** Every batch received, accepted or not, as it came over. */
    ghost var calls: seq<Call>

    ghost predicate Valid()
      reads this
    {
      blocks == Written(initial, log) && faults == Refused(accepts, writes)
    }

    /** Whether the handle leads to externs. */
    ghost predicate Registered()
      reads registry
    {
      Find(registry.Contents(), handle) != NilExterns
    }

    constructor (contents: map<Bytes, Bytes>, reg: Registry, h: u64, oracle: nat -> bool)
      ensures Valid() && registry == reg && handle == h && accepts == oracle
      ensures log == [] && calls == [] && writes == faults == 0 && initial == contents == blocks
    {
      registry, handle, accepts := reg, h, oracle;
      blocks, initial, log, writes, faults, calls := contents, contents, [], 0, 0, [];
    }

    /** The client's store may refuse any write; a refused write changes nothing. */
    method PutMany(entries: seq<Entry>) returns (ok: bool)
      requires Valid()
      modifies this
      ensures Valid() && Registered() == old(Registered()) && calls == old(calls)
      ensures ok == accepts(old(writes)) && writes == old(writes) + 1
      ensures if ok then log == old(log) + entries && faults == old(faults)
              else log == old(log) && faults == old(faults) + 1
    {
      writes := writes + 1;
      if !accepts(writes - 1) {
        faults := faults + 1;
        return false;
      }
      WrittenAppend(initial, log, entries);
      var i := 0;
      while i < |entries|
        invariant 0 <= i <= |entries| && Registered() == old(Registered())
        invariant blocks == Written(old(blocks), entries[..i])
        invariant log == old(log) && faults == old(faults) && calls == old(calls)
        invariant writes == old(writes) + 1
      {
        assert entries[..i + 1][..i] == entries[..i];
        blocks := blocks[entries[i].key := entries[i].data];
        i := i + 1;
      }
      assert entries[..i] == entries;
      log := log + entries;
      return true;
    }

    /** What the store holds; it may fail instead of answering. */
    method View(key: Bytes, answers: bool) returns (r: Result<Option<Bytes>, int>)
      ensures r == if !answers then Err(IO) else Ok(if key in blocks then Some(blocks[key]) else None)
    {
      if !answers {
        return Err(IO);
      }
      return Ok(if key in blocks then Some(blocks[key]) else None);
    }

    method CgoGet(key: Bytes, answers: bool) returns (res: int, data: Bytes, size: int)
      ensures !Registered() ==> res == -1
      ensures Registered() && !answers ==> res == -3
      ensures Registered() && answers ==> res == if key in blocks then 0 else -2
      ensures res == 0 ==> key in blocks && data == blocks[key] && size == AsI32(|data|)
    {
      data, size := [], 0;
      var externs := registry.Lookup(handle);
      if externs == NilExterns {
        return INVALID_HANDLE, data, size;
      }
      var r := View(key, answers);
      match r {
        case Err(_) => res := IO;
        case Ok(None) => res := NOT_FOUND;
        case Ok(Some(d)) => res, data, size := 0, d, AsI32(|d|);
      }
    }

    method CgoHas(key: Bytes, answers: bool) returns (res: int)
      ensures !Registered() ==> res == -1
      ensures Registered() && !answers ==> res == -3
      ensures Registered() && answers ==> res == if key in blocks then 1 else 0
    {
      var externs := registry.Lookup(handle);
      if externs == NilExterns {
        return INVALID_HANDLE;
      }
      var r := View(key, answers);
      match r {
        case Err(_) => res := IO;
        case Ok(b) => res := if b.Some? then 1 else 0;
      }
    }

    method CgoPut(key: Bytes, block: Bytes, blockLen: int) returns (res: int)
      requires Valid() && blockLen <= |block|
      modifies this
      ensures Valid() && Registered() == old(Registered()) && calls == old(calls)
      ensures res == if !Registered() then -1
                     else if blockLen < 0 then -5
                     else if accepts(old(writes)) then 0 else -3
      ensures log == old(log) + (if res == 0 then [Entry(key, block[..blockLen])] else [])
      ensures writes == old(writes) + (if res == 0 || res == IO then 1 else 0)
      ensures faults == old(faults) + (if res == IO then 1 else 0)
    {
      var externs := registry.Lookup(handle);
      if externs == NilExterns {
        return INVALID_HANDLE;
      }
      if blockLen < 0 {
        return PANIC;
      }
      var ok := PutMany([Entry(key, block[..blockLen])]);
      return if ok then 0 else IO;
    }

    /** Decodes the whole batch before it writes any of it. */
    method CgoPutMany(lengths: seq<int>, blockBuf: Bytes) returns (res: int)
      requires Valid() && Extent(lengths) <= |blockBuf|
      modifies this
      ensures Valid() && Registered() == old(Registered()) && calls == old(calls) + [Call(lengths, blockBuf)]
      ensures res == if !Registered() then -1
                     else if |lengths| > 0x4000_0000 then -4
                     else if DecodeAll(lengths, blockBuf).Err? then DecodeAll(lengths, blockBuf).error
                     else if accepts(old(writes)) then 0 else -3
      ensures res == 0 ==> DecodeAll(lengths, blockBuf).Ok? && log == old(log) + DecodeAll(lengths, blockBuf).value
      ensures res != 0 ==> log == old(log) && res < 0 && res != NOT_FOUND && (Registered() ==> res != INVALID_HANDLE)
      ensures writes == old(writes) + (if res == 0 || res == IO then 1 else 0)
      ensures faults == old(faults) + (if res == IO then 1 else 0)
    {
      calls := calls + [Call(lengths, blockBuf)];
      var externs := registry.Lookup(handle);
      if externs == NilExterns {
        return INVALID_HANDLE;
      }
      if |lengths| > MAX_LEN {
        return INVALID_ARGUMENT;
      }
      var blocksGo := DecodeBatch(lengths, blockBuf);
      if blocksGo.Err? {
        return blocksGo.error;
      }
      var ok := PutMany(blocksGo.value);
      return if ok then 0 else IO;
    }
  }

  /** The decoding loop: `offset` is always the sum of the lengths already read. */
  method DecodeBatch(lengths: seq<int>, blockBuf: Bytes) returns (r: Result<seq<Entry>, int>)
    requires Extent(lengths) <= |blockBuf|
    ensures r == DecodeAll(lengths, blockBuf)
    ensures r.Err? ==> r.error == INVALID_ARGUMENT || r.error == PANIC
  {
    hide ReadCid;
    var blocksGo: seq<Entry> := [];
    var offset := 0;
    var i := 0;
    assert lengths[0..] == lengths && blockBuf[0..] == blockBuf;
    PrependNil(DecodeAll(lengths, blockBuf));
    while i < |lengths|
      invariant 0 <= i <= |lengths| && 0 <= offset && offset + Extent(lengths[i..]) <= |blockBuf|
      invariant offset == PrefixSum(lengths, i)
      invariant DecodeAll(lengths, blockBuf) == Prepend(blocksGo, DecodeAll(lengths[i..], blockBuf[offset..]))
    {
      var length := lengths[i];
      var rest := blockBuf[offset..];
      assert lengths[i..][0] == length && lengths[i..][1..] == lengths[i + 1..];
      if length > MAX_LEN {
        return Err(INVALID_ARGUMENT);
      }
      if length < 0 {
        return Err(PANIC); // slicing with a negative bound panics, and the panic is recovered
      }
      var buf := rest[..length];
      var cidLen := ReadCid(buf);
      if cidLen.None? {
        return Err(INVALID_ARGUMENT);
      }
      var entry := Entry(buf[..cidLen.value], buf[cidLen.value..]);
      assert rest[length..] == blockBuf[offset + length..];
      PrependStep(blocksGo, entry, DecodeAll(lengths[i + 1..], blockBuf[offset + length..]));
      blocksGo := blocksGo + [entry];
      offset := offset + length;
      i := i + 1;
    }
    assert lengths[i..] == [] && blocksGo + [] == blocksGo;
    return Ok(blocksGo);
  }

  function Prepend(front: seq<Entry>, r: Result<seq<Entry>, int>): Result<seq<Entry>, int> {
    if r.Ok? then Ok(front + r.value) else r
  }

  lemma {:induction false} PrependNil(r: Result<seq<Entry>, int>)
    ensures Prepend([], r) == r
  {
    if r.Ok? {
      assert [] + r.value == r.value;
    }
  }

  lemma {:induction false} PrependStep(front: seq<Entry>, e: Entry, r: Result<seq<Entry>, int>)
    ensures Prepend(front, Prepend([e], r)) == Prepend(front + [e], r)
  {
    if r.Ok? {
      assert front + ([e] + r.value) == front + [e] + r.value;
    }
  }

  // ---------------------------------------------------------------- the Rust side

  function CheckPut(res: int): Outcome<()> {
    if res == 0 then Done(())
    else if res >= 1 || res == INVALID_HANDLE || res == NOT_FOUND then Panicked
    else Failed(res)
  }

  lemma {:induction false} EmptyBatch()
    ensures Lengths([]) == [] && Frames([]) == []
  {
  }

  lemma {:induction false} AppendLemma(buf: Bytes, b: Block)
    ensures (buf + WriteCid(b.cid)) + b.data == buf + Frame(b)
  {
  }

  /** The two vectors that the batched writer fills and clears. */
  class Buffer {
    var lengths: seq<int>
    var buf: Bytes
    ghost var pending: seq<Block>

    ghost predicate Valid()
      reads this
    {
      lengths == Lengths(pending) && buf == Frames(pending)
    }

    constructor ()
      ensures Valid() && pending == []
    {
      lengths, buf, pending := [], [], [];
    }

    method Append(b: Block)
      requires Valid()
      modifies this
      ensures Valid() && pending == old(pending) + [b]
    {
      BatchSnoc(pending, b);
      AppendLemma(buf, b);
      var start := |buf|;
      buf := buf + WriteCid(b.cid);
      buf := buf + b.data;
      var size := |buf| - start;
      assert size == |Frame(b)|;
      lengths := lengths + [AsI32(size)];
      pending := pending + [b];
    }

    method Flush(go: GoStore) returns (r: Outcome<()>)
      requires Valid() && go.Valid() && (pending == [] || Packed(pending))
      modifies this, go
      ensures Valid() && go.Valid() && pending == [] && go.Registered() == old(go.Registered())
      ensures go.calls == old(go.calls) + (if old(pending) == [] then [] else [CallOf(old(pending))])
      ensures old(pending) == [] ==> r == Done(()) && go.log == old(go.log) && go.faults == old(go.faults)
      ensures old(pending) != [] ==>
                Sent(r, go.Registered(), old(pending), old(go.log), go.log, old(go.faults), go.faults)
    {
      hide WriteCid, Frames, Packed, DecodeAll, Extent, ReceiveAll, Carriable;
      EmptyBatch();
      if pending != [] {
        BatchCons(pending);
      }
      if buf == [] {
        return Done(());
      }
      PackedBounds(pending);
      PackedCarriable(pending);
      DecodeWritten(pending);
      var res := go.CgoPutMany(lengths, buf);
      buf, lengths, pending := [], [], [];
      return CheckPut(res);
    }

    /** One turn of the writer's loop: make room if there is none, then buffer the block. */
    method Add(go: GoStore, b: Block) returns (r: Outcome<()>)
      requires Valid() && go.Valid() && (pending == [] || Packed(pending))
      modifies this, go
      ensures Valid() && go.Valid() && go.Registered() == old(go.Registered())
      ensures go.calls == old(go.calls) + (if old(pending) == [] || Fits(old(pending), b) then []
                                           else [CallOf(old(pending))])
      ensures old(pending) == [] || Fits(old(pending), b) ==>
                r.Done? && pending == old(pending) + [b] && go.log == old(go.log) && go.faults == old(go.faults)
      ensures old(pending) != [] && !Fits(old(pending), b) ==>
                Sent(r, go.Registered(), old(pending), old(go.log), go.log, old(go.faults), go.faults)
      ensures old(pending) != [] && !Fits(old(pending), b) && r.Done? ==> pending == [b]
    {
      hide WriteCid, Frames, Packed, ReceiveAll;
      r := Done(());
      if |lengths| >= MAX_BLOCK_BATCH || EST_MAX_CID_LEN + |b.data| + |buf| > MAX_BUF_SIZE {
        r := Flush(go);
        if !r.Done? {
          return;
        }
        assert [] + [b] == [b];
      }
      Append(b);
    }
  }

  /** A batch as it goes over. */
  function CallOf(batch: seq<Block>): Call {
    Call(Lengths(batch), Frames(batch))
  }

  /** How sending one batch may end. */
  ghost predicate Sent(r: Outcome<()>, registered: bool, batch: seq<Block>,
                       log: seq<Entry>, log': seq<Entry>, faults: nat, faults': nat)
  {
    && (r.Done? ==> registered && ReceiveAll(batch).Ok? && log' == log + ReceiveAll(batch).value && faults' == faults)
    && (!r.Done? ==> log' == log)
    && !r.Overrun? && (r.Panicked? <==> !registered)
    && (r.Failed? ==>
          (faults' == faults && ReceiveAll(batch) == Err(r.code)) || (faults' == faults + 1 && r.code == IO))
  }

  class CgoBlockstore {
    const go: GoStore

    constructor (store: GoStore)
      ensures go == store
    {
      go := store;
    }

    method Has(k: Cid, answers: bool) returns (r: Outcome<bool>)
      ensures r == if !go.Registered() then Panicked
                   else if !answers then Failed(IO) else Done(WriteCid(k) in go.blocks)
    {
      var res := go.CgoHas(WriteCid(k), answers);
      if res == 0 || res == NOT_FOUND {
        return Done(false);
      } else if res == 1 {
        return Done(true);
      } else if res >= 2 || res == INVALID_HANDLE {
        return Panicked;
      }
      return Failed(res);
    }

    /** A stored block longer than a 32-bit length can say comes back cut, or as a vector that overruns. */
    method Get(k: Cid, answers: bool) returns (r: Outcome<Option<Bytes>>)
      ensures r == if !go.Registered() then Panicked
                   else if !answers then Failed(IO)
                   else if WriteCid(k) !in go.blocks then Done(None)
                   else if Cut(go.blocks[WriteCid(k)]).None? then Overrun
                   else Done(Cut(go.blocks[WriteCid(k)]))
    {
      var res, data, size := go.CgoGet(WriteCid(k), answers);
      if res == 0 {
        // Cast to usize, a negative size is at least 2^64 - 2^31, more than any buffer holds.
        return if size < 0 then Overrun else Done(Some(data[..size]));
      } else if res >= 1 || res == INVALID_HANDLE {
        return Panicked;
      } else if res == NOT_FOUND {
        return Done(None);
      }
      return Failed(res);
    }

    method PutKeyed(k: Cid, block: Bytes) returns (r: Outcome<()>)
      requires go.Valid()
      modifies go
      ensures go.Valid() && go.Registered() == old(go.Registered()) && go.calls == old(go.calls)
      ensures r == if !go.Registered() then Panicked
                   else if AsI32(|block|) < 0 then Failed(PANIC)
                   else if go.accepts(old(go.writes)) then Done(()) else Failed(IO)
      ensures r.Done? ==> PutReceived(k, block).Some? && go.log == old(go.log) + [PutReceived(k, block).value]
      ensures !r.Done? ==> go.log == old(go.log)
      ensures go.faults == old(go.faults) + (if r == Failed(IO) then 1 else 0)
    {
      var res := go.CgoPut(WriteCid(k), block, AsI32(|block|));
      return CheckPut(res);
    }

    /**
      * `batches` are the batches that were sent. All of them arrive, in order, or the last one is
      * the first to fail: nothing of it is written and nothing after it is sent.
      */
    method PutManyKeyed(blocks: seq<Block>) returns (r: Outcome<()>, ghost batches: seq<seq<Block>>)
      requires go.Valid()
      modifies go
      ensures go.Valid() && go.Registered() == old(go.Registered())
      ensures Greedy(batches) && go.calls == old(go.calls) + MapSeq(CallOf, batches)
      ensures r.Done? ==> Concat(batches) == blocks && go.faults == old(go.faults)
                          && ReceiveAll(blocks).Ok? && go.log == old(go.log) + ReceiveAll(blocks).value
      ensures !r.Done? ==> batches != [] && StoppedAt(blocks, batches)
      ensures !r.Done? ==> var sent := Concat(batches[..|batches| - 1]);
                           ReceiveAll(sent).Ok? && go.log == old(go.log) + ReceiveAll(sent).value
      ensures r.Failed? ==>
                ReceiveAll(batches[|batches| - 1]) == Err(r.code) || (go.faults == old(go.faults) + 1 && r.code == IO)
      ensures !r.Overrun? && (r.Panicked? <==> !go.Registered() && blocks != [])
      ensures go.Registered() && go.faults == old(go.faults) && ReceiveAll(blocks).Ok? ==> r.Done?
    {
      hide WriteCid, Packed, Greedy, ReceiveAll, StoppedAt, CallOf, Refused, Written;
      ProgressInit(blocks);
      var buffer := new Buffer();
      ghost var sent: seq<seq<Block>> := [];
      batches := [];
      var i := 0;
      while i < |blocks|
        invariant 0 <= i <= |blocks| && fresh(buffer)
        invariant buffer.Valid() && go.Valid() && go.Registered() == old(go.Registered())
        invariant Progress(blocks, i, sent, buffer.pending)
        invariant go.log == old(go.log) + ReceiveAll(Concat(sent)).value && go.faults == old(go.faults)
        invariant go.calls == old(go.calls) + MapSeq(CallOf, sent)
        invariant sent != [] ==> go.Registered()
      {
        ghost var batch := buffer.pending;
        r := buffer.Add(go, blocks[i]);
        if batch == [] || Fits(batch, blocks[i]) {
          ProgressAppend(blocks, i, sent, batch);
        } else {
          ProgressSend(blocks, i, sent, batch);
          CallsSnoc(old(go.calls), sent, batch);
          batches := sent + [batch];
        }
        if !r.Done? {
          StoppedReceives(blocks, batches);
          return;
        }
        if batch != [] && !Fits(batch, blocks[i]) {
          ProgressNext(blocks, i, sent, batch);
          AppendAssoc(old(go.log), ReceiveAll(Concat(sent)).value, ReceiveAll(batch).value);
          sent := batches;
        }
        i := i + 1;
      }
      ghost var batch := buffer.pending;
      r := buffer.Flush(go);
      batches := sent;
      assert blocks[..i] == blocks;
      if batch != [] {
        ProgressSend(blocks, i, sent, batch);
        CallsSnoc(old(go.calls), sent, batch);
        batches := sent + [batch];
        StoppedReceives(blocks, batches);
        if r.Done? {
          AppendAssoc(old(go.log), ReceiveAll(Concat(sent)).value, ReceiveAll(batch).value);
        }
      }
    }
  }

  /** What a single put hands to the store: the data up to the 32-bit length. */
  function PutReceived(k: Cid, data: Bytes): Option<Entry> {
    match Cut(data)
    case None => None
    case Some(part) => Some(Entry(WriteCid(k), part))
  }

  /** A single put is faithful exactly when the size of the data survives the cast. */
  lemma {:induction false} PutReceivedIff(k: Cid, data: Bytes)
    ensures PutReceived(k, data) == Some(Entry(WriteCid(k), data)) <==> |data| < 0x8000_0000
    ensures PutReceived(k, data).Some? <==> AsI32(|data|) >= 0
  {
    hide WriteCid;
    CutIff(data);
  }

  /** `entries` are what single puts of the blocks hand over, one for each block. */
  ghost predicate PutsReceived(blocks: seq<Block>, entries: seq<Entry>) {
    |entries| == |blocks|
    && forall i | 0 <= i < |blocks| :: PutReceived(blocks[i].cid, blocks[i].data) == Some(entries[i])
  }

  /** Whatever the batched path takes of a block, whole or cut, a single put takes just the same. */
  lemma {:induction false} ReceivedAsPut(b: Block)
    requires Received(b).Ok?
    ensures PutReceived(b.cid, b.data) == Some(Received(b).value)
  {
    ReceivedExactly(b);
    CidLen(b.cid);
    hide WriteCid, ReadCid, Received;
    CastAfterPrefix(|WriteCid(b.cid)|, |b.data|);
    assert |Frame(b)| == |WriteCid(b.cid)| + |b.data|;
    hide AsI32;
  }

  /** The converse fails, exactly for data that a 32-bit length can say in a frame that is not accepted. */
  lemma {:induction false} OnlyAsPut(b: Block)
    ensures PutReceived(b.cid, b.data).Some? && Received(b).Err? <==> AsI32(|b.data|) >= 0 && !Accepted(b)
  {
    ReceivedExactly(b);
    hide WriteCid, ReadCid, Received, Accepted;
  }

  /** Such are data of up to 2^31 bytes with an unreadable CID or more than 2^30 bytes: stored whole, or refused. */
  lemma {:induction false} LargePutOnly(c: Cid, data: Bytes)
    requires |data| < TWO_31 && (!Readable(c) || |data| > TWO_30)
    ensures PutReceived(c, data) == Some(Entry(WriteCid(c), data))
    ensures Received(Block(c, data)).Err?
  {
    PutReceivedIff(c, data);
    ReceivedExactly(Block(c, data));
    CidLen(c);
    hide WriteCid, ReadCid, Received;
  }

  /**
    * The batched path hands the store the entries that one put after another would, if and only if
    * every block is accepted.
    */
  lemma {:induction false} BatchedIsSequential(blocks: seq<Block>)
    ensures ReceiveAll(blocks).Ok? <==> forall i | 0 <= i < |blocks| :: Accepted(blocks[i])
    ensures ReceiveAll(blocks).Ok? ==> PutsReceived(blocks, ReceiveAll(blocks).value)
  {
    var each := MapSeq(Received, blocks);
    assert forall i | 0 <= i < |blocks| :: each[i] == Received(blocks[i]);
    hide WriteCid, ReadCid, Received, Accepted, PutReceived, MapSeq;
    forall i | 0 <= i < |blocks|
      ensures Received(blocks[i]).Ok? <==> Accepted(blocks[i])
      ensures Received(blocks[i]).Ok? ==>
                PutReceived(blocks[i].cid, blocks[i].data) == Some(Received(blocks[i]).value)
    {
      ReceivedExactly(blocks[i]);
      if Received(blocks[i]).Ok? {
        ReceivedAsPut(blocks[i]);
      }
    }
  }

  /** The same blocks, put one by one; stops at the first put that fails. */
  method PutEach(store: CgoBlockstore, blocks: seq<Block>) returns (r: Outcome<()>, ghost entries: seq<Entry>)
    requires store.go.Valid()
    modifies store.go
    ensures store.go.Valid() && store.go.Registered() == old(store.go.Registered())
    ensures store.go.log == old(store.go.log) + entries && |entries| <= |blocks|
    ensures PutsReceived(blocks[..|entries|], entries)
    ensures r.Done? ==> |entries| == |blocks|
    ensures !r.Done? ==> !store.go.Registered() || store.go.faults > old(store.go.faults)
                         || exists i | 0 <= i < |blocks| :: PutReceived(blocks[i].cid, blocks[i].data).None?
  {
    hide PutReceived, WriteCid, Cut, AsI32, Written, Refused;
    entries := [];
    var i := 0;
    while i < |blocks|
      invariant 0 <= i <= |blocks| && store.go.Valid() && store.go.Registered() == old(store.go.Registered())
      invariant store.go.log == old(store.go.log) + entries && |entries| == i
      invariant PutsReceived(blocks[..i], entries) && store.go.faults == old(store.go.faults)
    {
      ghost var log := store.go.log;
      PutReceivedIff(blocks[i].cid, blocks[i].data);
      r := store.PutKeyed(blocks[i].cid, blocks[i].data);
      if !r.Done? {
        return;
      }
      ghost var e := PutReceived(blocks[i].cid, blocks[i].data).value;
      AppendAssoc(old(store.go.log), entries, [e]);
      entries := entries + [e];
      i := i + 1;
    }
    return Done(()), entries;
  }

  /**
    * Two stores with the same contents, one written in batches and the other block by block, hold the
    * same blocks afterwards if both succeed. The batched one succeeds if its handle is registered, no
    * write is refused and every block is accepted; the other then succeeds too unless it is refused.
    */
  method BothWays(batched: CgoBlockstore, single: CgoBlockstore, blocks: seq<Block>)
    returns (rb: Outcome<()>, rs: Outcome<()>)
    requires batched.go != single.go && batched.go.Valid() && single.go.Valid()
    requires batched.go.blocks == single.go.blocks
    modifies batched.go, single.go
    ensures rb.Done? && rs.Done? ==> batched.go.blocks == single.go.blocks
    ensures batched.go.Registered() && batched.go.faults == old(batched.go.faults) ==>
              (forall i | 0 <= i < |blocks| :: Accepted(blocks[i])) ==> rb.Done?
    ensures rb.Done? && single.go.Registered() && single.go.faults == old(single.go.faults) ==> rs.Done?
  {
    hide PutReceived, ReceiveAll, Accepted, Greedy, StoppedAt, CallOf;
    BatchedIsSequential(blocks);
    ghost var batches, entries;
    rb, batches := batched.PutManyKeyed(blocks);
    rs, entries := PutEach(single, blocks);
    WrittenAppend(single.go.initial, old(single.go.log), entries);
    assert blocks[..|blocks|] == blocks;
    if rb.Done? {
      WrittenAppend(batched.go.initial, old(batched.go.log), ReceiveAll(blocks).value);
      if rs.Done? {
        assert entries == ReceiveAll(blocks).value;
      }
    }
  }

  /** The sent batches are a prefix of the blocks that ends where a batch ends. */
  ghost predicate StoppedAt(blocks: seq<Block>, batches: seq<seq<Block>>)
    requires batches != []
  {
    var n := |Concat(batches)|;
    && n <= |blocks| && Concat(batches) == blocks[..n]
    && (n == |blocks| || !Fits(batches[|batches| - 1], blocks[n]))
  }

  /** If all blocks are received, so are those of the batch at which the writer stopped. */
  lemma {:induction false} StoppedReceives(blocks: seq<Block>, batches: seq<seq<Block>>)
    requires batches != [] && StoppedAt(blocks, batches)
    ensures ReceiveAll(blocks).Ok? ==> ReceiveAll(batches[|batches| - 1]).Ok?
  {
    hide ReceiveAll, Fits, Concat;
    var n, m := |Concat(batches)|, |batches| - 1;
    ConcatLast(batches);
    ReceiveAllAppend(Concat(batches[..m]), batches[m]);
    TakeDrop(blocks, n);
    ReceiveAllAppend(blocks[..n], blocks[n..]);
  }

  /** Between two blocks: what was sent and what is buffered are the blocks read so far. */
  ghost predicate Progress(blocks: seq<Block>, i: nat, sent: seq<seq<Block>>, pending: seq<Block>) {
    && i <= |blocks| && Concat(sent) + pending == blocks[..i]
    && (if i == 0 then pending == [] else Packed(pending))
    && Greedy(sent) && (sent != [] ==> i > 0 && !Fits(sent[|sent| - 1], pending[0]))
    && ReceiveAll(Concat(sent)).Ok?
  }

  lemma {:induction false} CallsSnoc(calls: seq<Call>, sent: seq<seq<Block>>, batch: seq<Block>)
    ensures calls + MapSeq(CallOf, sent + [batch]) == calls + MapSeq(CallOf, sent) + [CallOf(batch)]
  {
    MapAppend(CallOf, sent, [batch]);
    assert MapSeq(CallOf, [batch]) == [CallOf(batch)];
    AppendAssoc(calls, MapSeq(CallOf, sent), [CallOf(batch)]);
  }

  lemma {:induction false} ProgressInit(blocks: seq<Block>)
    ensures Progress(blocks, 0, [], []) && ReceiveAll(Concat([])) == Ok([])
  {
  }

  lemma {:induction false} ProgressAppend(blocks: seq<Block>, i: nat, sent: seq<seq<Block>>, pending: seq<Block>)
    requires Progress(blocks, i, sent, pending) && i < |blocks|
    requires pending == [] || Fits(pending, blocks[i])
    ensures Progress(blocks, i + 1, sent, pending + [blocks[i]])
  {
    hide WriteCid, Fits, Packed, Greedy, ReceiveAll;
    if i > 0 {
      PackedNonEmpty(pending);
    }
    PackedSnoc(pending, blocks[i]);
    assert blocks[..i + 1] == blocks[..i] + [blocks[i]];
    AppendAssoc(Concat(sent), pending, [blocks[i]]);
  }

  /** Sending the buffered blocks extends the batches sent so far. */
  lemma {:induction false} ProgressSend(blocks: seq<Block>, i: nat, sent: seq<seq<Block>>, batch: seq<Block>)
    requires Progress(blocks, i, sent, batch) && batch != []
    requires i == |blocks| || !Fits(batch, blocks[i])
    ensures Greedy(sent + [batch]) && StoppedAt(blocks, sent + [batch])
    ensures Concat(sent + [batch]) == blocks[..i]
    ensures (sent + [batch])[..|sent|] == sent && (sent + [batch])[|sent|] == batch
    ensures ReceiveAll(batch).Ok? ==>
              && ReceiveAll(blocks[..i]).Ok?
              && ReceiveAll(blocks[..i]).value == ReceiveAll(Concat(sent)).value + ReceiveAll(batch).value
  {
    hide WriteCid;
    GreedySnoc(sent, batch);
    ConcatSnoc(sent, batch);
    ReceiveAllAppend(Concat(sent), batch);
  }

  lemma {:induction false} ProgressNext(blocks: seq<Block>, i: nat, sent: seq<seq<Block>>, batch: seq<Block>)
    requires Progress(blocks, i, sent, batch) && batch != []
    requires i < |blocks| && !Fits(batch, blocks[i]) && ReceiveAll(batch).Ok?
    ensures Progress(blocks, i + 1, sent + [batch], [blocks[i]])
    ensures ReceiveAll(Concat(sent + [batch])).value == ReceiveAll(Concat(sent)).value + ReceiveAll(batch).value
  {
    hide WriteCid, Fits, Packed, Greedy, ReceiveAll, StoppedAt;
    ProgressSend(blocks, i, sent, batch);
    PackedSnoc([], blocks[i]);
    assert [] + [blocks[i]] == [blocks[i]];
    assert blocks[..i + 1] == blocks[..i] + [blocks[i]];
  }
}
