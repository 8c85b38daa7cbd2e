/**
  * The layered blockstores of rust/src/fvm/blockstore/fake.rs and overlay.rs, over the store that
  * create_fvm_machine puts below them.
  */
module LayeredStores {
  import opened Common
  import opened Cids
  import opened Framing
  import opened Batching
  import opened CgoBlockstores

  /** The digest of data under a hash code, if the code is known. */
  type Hasher = (u64, Bytes) -> Option<Bytes>

  predicate Matches(hasher: Hasher, k: Cid, data: Bytes) {
    hasher(k.hash.code, data) == Some(k.hash.digest)
  }

  /** An in-memory layer over a base store. */
  datatype Layers = Layers(top: map<Cid, Bytes>, base: map<Bytes, Bytes>)

  /** What the base holds under a key. */
  function Stored(base: map<Bytes, Bytes>, k: Cid): Option<Bytes> {
    if WriteCid(k) in base then Some(base[WriteCid(k)]) else None
  }

  /** What a read through the base gives for what it holds: a long block is cut, or overruns. */
  function Seen(held: Option<Bytes>): Outcome<Option<Bytes>> {
    match held
    case None => Done(None)
    case Some(data) => if Cut(data).Some? then Done(Cut(data)) else Overrun
  }

  /** A read gives the whole block exactly below 2^31 bytes, and overruns exactly when the length is negative. */
  lemma {:induction false} SeenIff(data: Bytes)
    ensures Seen(Some(data)) == Done(Some(data)) <==> |data| < TWO_31
    ensures Seen(Some(data)) == Overrun <==> AsI32(|data|) < 0
  {
    CutIff(data);
  }

  /** The smallest block whose read overruns, and one of which a read gives nothing. */
  lemma {:induction false} LargeBlocksSeen(data: Bytes)
    ensures |data| == TWO_31 ==> Seen(Some(data)) == Overrun
    ensures |data| == TWO_32 ==> Seen(Some(data)) == Done(Some([]))
  {
    assert data[..0] == [];
  }

  function Read(s: Layers, k: Cid): Outcome<Option<Bytes>> {
    if k in s.top then Done(Some(s.top[k])) else Seen(Stored(s.base, k))
  }

  /** A keyed put that succeeded. */
  function PutStep(hasher: Hasher, s: Layers, b: Block): Layers {
    if !Matches(hasher, b.cid, b.data) then s.(top := s.top[b.cid := b.data])
    else match PutReceived(b.cid, b.data)
      case Some(e) => s.(base := s.base[e.key := e.data])
      case None => s
  }

  function Run(hasher: Hasher, s: Layers, puts: seq<Block>): Layers {
    if puts == [] then s
    else var n := |puts| - 1; PutStep(hasher, Run(hasher, s, puts[..n]), puts[n])
  }

  /** Every put with the right hash has a length that the base can be told. */
  ghost predicate Taken(hasher: Hasher, puts: seq<Block>) {
    forall b | b in puts && Matches(hasher, b.cid, b.data) :: PutReceived(b.cid, b.data).Some?
  }

  lemma {:induction false} RunAppend(hasher: Hasher, s: Layers, a: seq<Block>, b: seq<Block>)
    ensures Run(hasher, s, a + b) == Run(hasher, Run(hasher, s, a), b)
  {
    if b == [] {
      assert a + b == a;
    } else {
      var n := |b| - 1;
      assert (a + b)[..|a + b| - 1] == a + b[..n] && (a + b)[|a + b| - 1] == b[n];
      RunAppend(hasher, s, a, b[..n]);
      hide PutStep;
    }
  }

  lemma {:induction false} RunSnoc(hasher: Hasher, s: Layers, a: seq<Block>, b: Block)
    ensures Run(hasher, s, a + [b]) == PutStep(hasher, Run(hasher, s, a), b)
  {
    hide PutStep;
    assert (a + [b])[..|a + [b]| - 1] == a;
  }

  // ---------------------------------------------------------------- the stores

  class FakeBlockstore {
    var fakeBlocks: map<Cid, Bytes>
    const base: CgoBlockstore
    const hasher: Hasher
    /** The base when the store was made, and every put that succeeded since. */
    ghost const base0: map<Bytes, Bytes>
    ghost var history: seq<Block>

    ghost function State(): Layers
      reads this, base.go
    {
      Layers(fakeBlocks, base.go.blocks)
    }

    ghost predicate Valid()
      reads this, base.go
    {
      && base.go.Valid() && State() == Run(hasher, Layers(map[], base0), history)
      && Taken(hasher, history)
    }

    constructor (bs: CgoBlockstore, h: Hasher)
      requires bs.go.Valid()
      ensures Valid() && base == bs && hasher == h && fakeBlocks == map[]
      ensures history == [] && base0 == bs.go.blocks
    {
      fakeBlocks, base, hasher := map[], bs, h;
      base0, history := bs.go.blocks, [];
    }

    /** After any mix of calls, failed ones included, a read gives what the history makes one expect. */
    method Get(k: Cid, answers: bool) returns (r: Outcome<Option<Bytes>>)
      requires Valid()
      ensures k in fakeBlocks ==> r == Done(Some(fakeBlocks[k]))
      ensures k !in fakeBlocks && !base.go.Registered() ==> r == Panicked
      ensures k !in fakeBlocks && base.go.Registered() && !answers ==> r == Failed(IO)
      ensures k in fakeBlocks || (base.go.Registered() && answers) ==>
                r == Read(State(), k) == Expected(hasher, base0, history, k)
    {
      hide WriteCid, Run, Expected;
      ReadAfterRun(hasher, base0, history, k);
      if k in fakeBlocks {
        return Done(Some(fakeBlocks[k]));
      }
      r := base.Get(k, answers);
    }

    method Has(k: Cid, answers: bool) returns (r: Outcome<bool>)
      requires Valid()
      ensures k !in fakeBlocks && !base.go.Registered() ==> r == Panicked
      ensures k !in fakeBlocks && base.go.Registered() && !answers ==> r == Failed(IO)
      ensures k in fakeBlocks || (base.go.Registered() && answers) ==>
                && r == Done(k in fakeBlocks || WriteCid(k) in base.go.blocks)
                && r == Done(Expected(hasher, base0, history, k) != Done(None))
    {
      hide WriteCid, Run, Expected;
      ReadAfterRun(hasher, base0, history, k);
      if k in fakeBlocks {
        return Done(true);
      }
      r := base.Has(k, answers);
    }

    method PutKeyed(k: Cid, block: Bytes) returns (r: Outcome<()>)
      requires Valid()
      modifies this, base.go
      ensures Valid() && history == old(history) + (if r.Done? then [Block(k, block)] else [])
      ensures State() == if r.Done? then PutStep(hasher, old(State()), Block(k, block)) else old(State())
      ensures hasher(k.hash.code, block) != Some(k.hash.digest) ==>
                r == Done(()) && fakeBlocks == old(fakeBlocks)[k := block] && base.go.blocks == old(base.go.blocks)
                && base.go.faults == old(base.go.faults)
      ensures hasher(k.hash.code, block) == Some(k.hash.digest) ==>
                && r == (if !base.go.Registered() then Panicked
                         else if AsI32(|block|) < 0 then Failed(PANIC)
                         else if base.go.accepts(old(base.go.writes)) then Done(()) else Failed(IO))
                && fakeBlocks == old(fakeBlocks)
                && base.go.faults == old(base.go.faults) + (if r == Failed(IO) then 1 else 0)
                && base.go.blocks == if r.Done? then old(base.go.blocks)[WriteCid(k) := block[..AsI32(|block|)]]
                                     else old(base.go.blocks)
    {
      hide WriteCid, Run, Refused;
      RunSnoc(hasher, Layers(map[], base0), history, Block(k, block));
      if Matches(hasher, k, block) {
        r := base.PutKeyed(k, block);
        if r.Done? {
          WrittenAppend(base.go.initial, old(base.go.log), [PutReceived(k, block).value]);
          WrittenOne(old(base.go.blocks), PutReceived(k, block).value);
        }
      } else {
        fakeBlocks := fakeBlocks[k := block];
        r := Done(());
      }
      if r.Done? {
        history := history + [Block(k, block)];
      }
    }

    /** Stops at the first put that fails; everything before it stays. */
    method PutManyKeyed(blocks: seq<Block>) returns (r: Outcome<()>)
      requires Valid()
      modifies this, base.go
      ensures Valid()
      ensures r.Done? ==> history == old(history) + blocks && State() == Run(hasher, old(State()), blocks)
      ensures !r.Done? ==> exists n | 0 <= n < |blocks| ::
                && history == old(history) + blocks[..n] && State() == Run(hasher, old(State()), blocks[..n])
                && Matches(hasher, blocks[n].cid, blocks[n].data)
                && (r == Failed(PANIC) ==> PutReceived(blocks[n].cid, blocks[n].data).None?)
      ensures r.Done? || r == Failed(PANIC) || r == Failed(IO) || r == Panicked
      ensures r.Panicked? ==> !base.go.Registered()
      ensures base.go.faults == old(base.go.faults) + (if r == Failed(IO) then 1 else 0)
      ensures base.go.Registered() && base.go.faults == old(base.go.faults) && Taken(hasher, blocks) ==> r.Done?
    {
      hide WriteCid, PutStep, Run, PutReceived, Refused, Written;
      ghost var start := Layers(map[], base0);
      var i := 0;
      while i < |blocks|
        invariant 0 <= i <= |blocks| && Valid()
        invariant history == old(history) + blocks[..i] && base.go.faults == old(base.go.faults)
      {
        PutReceivedIff(blocks[i].cid, blocks[i].data);
        r := PutKeyed(blocks[i].cid, blocks[i].data);
        if !r.Done? {
          RunAppend(hasher, start, old(history), blocks[..i]);
          return;
        }
        assert blocks[..i + 1] == blocks[..i] + [blocks[i]];
        i := i + 1;
      }
      assert blocks[..i] == blocks;
      RunAppend(hasher, start, old(history), blocks);
      return Done(());
    }

    method Finish() returns (o: OverlayBlockstore)
      requires Valid()
      ensures fresh(o) && o.Valid() && o.over == fakeBlocks && o.base == base
      ensures o.State() == State() && o.history == [] && o.base0 == base.go.blocks
      ensures o.Made(hasher, base0, history)
    {
      hide WriteCid, Run;
      o := new OverlayBlockstore(fakeBlocks, base);
    }
  }

  class OverlayBlockstore {
    const over: map<Cid, Bytes>
    const base: CgoBlockstore
    /** The base when the store was made, the writes until then, and every put that succeeded since. */
    ghost const base0: map<Bytes, Bytes>
    ghost const mark: nat
    ghost var history: seq<Block>

    ghost function State(): Layers
      reads base.go
    {
      Layers(over, base.go.blocks)
    }

    ghost predicate Valid()
      reads this, base.go
    {
      && base.go.Valid() && mark <= |base.go.log|
      && base.go.blocks == Written(base0, base.go.log[mark..]) && PutsReceived(history, base.go.log[mark..])
    }

    /** The store was made from layers with these puts. */
    ghost predicate Made(hasher: Hasher, first: map<Bytes, Bytes>, puts: seq<Block>)
      reads this
    {
      Layers(over, base0) == Run(hasher, Layers(map[], first), puts)
    }

    constructor (overlay: map<Cid, Bytes>, bs: CgoBlockstore)
      requires bs.go.Valid()
      ensures Valid() && over == overlay && base == bs && history == [] && base0 == bs.go.blocks
    {
      over, base := overlay, bs;
      base0, mark, history := bs.go.blocks, |bs.go.log|, [];
    }

    /** After any mix of calls: the overlay, else the last put since it was made, else the base of then. */
    method Get(k: Cid, answers: bool) returns (r: Outcome<Option<Bytes>>)
      requires Valid()
      ensures k in over ==> r == Done(Some(over[k]))
      ensures k !in over && !base.go.Registered() ==> r == Panicked
      ensures k !in over && base.go.Registered() && !answers ==> r == Failed(IO)
      ensures k in over || (base.go.Registered() && answers) ==>
                r == Read(State(), k) == Later(Layers(over, base0), history, k)
    {
      hide WriteCid, Later, Written;
      ReadAfterPuts(Layers(over, base0), history, base.go.log[mark..], k);
      if k in over {
        return Done(Some(over[k]));
      }
      r := base.Get(k, answers);
    }

    method Has(k: Cid, answers: bool) returns (r: Outcome<bool>)
      requires Valid()
      ensures k !in over && !base.go.Registered() ==> r == Panicked
      ensures k !in over && base.go.Registered() && !answers ==> r == Failed(IO)
      ensures k in over || (base.go.Registered() && answers) ==>
                && r == Done(k in over || WriteCid(k) in base.go.blocks)
                && r == Done(Later(Layers(over, base0), history, k) != Done(None))
    {
      hide WriteCid, Later, Written;
      ReadAfterPuts(Layers(over, base0), history, base.go.log[mark..], k);
      if k in over {
        return Done(true);
      }
      r := base.Has(k, answers);
    }

    method PutKeyed(k: Cid, block: Bytes) returns (r: Outcome<()>)
      requires Valid()
      modifies this, base.go
      ensures Valid() && history == old(history) + (if r.Done? then [Block(k, block)] else [])
      ensures r == if !base.go.Registered() then Panicked
                   else if AsI32(|block|) < 0 then Failed(PANIC)
                   else if base.go.accepts(old(base.go.writes)) then Done(()) else Failed(IO)
      ensures base.go.faults == old(base.go.faults) + (if r == Failed(IO) then 1 else 0)
      ensures base.go.blocks == if r.Done? then old(base.go.blocks)[WriteCid(k) := block[..AsI32(|block|)]]
                                else old(base.go.blocks)
    {
      hide WriteCid, Written, Refused;
      r := base.PutKeyed(k, block);
      if r.Done? {
        ghost var e := PutReceived(k, block).value;
        Extend([Block(k, block)], old(base.go.log), [e]);
        WrittenOne(old(base.go.blocks), e);
      }
    }

    /** Entries that puts of `blocks` hand over were written: the history goes on by those blocks. */
    ghost method Extend(blocks: seq<Block>, log: seq<Entry>, entries: seq<Entry>)
      requires mark <= |log| && base.go.Valid() && base.go.log == log + entries
      requires PutsReceived(blocks, entries) && PutsReceived(history, log[mark..])
      requires Written(base.go.initial, log) == Written(base0, log[mark..])
      modifies this
      ensures Valid() && history == old(history) + blocks
      ensures base.go.blocks == Written(Written(base.go.initial, log), entries)
    {
      hide WriteCid, PutReceived, Written;
      WrittenAppend(base.go.initial, log, entries);
      WrittenAppend(base0, log[mark..], entries);
      assert (log + entries)[mark..] == log[mark..] + entries;
      history := history + blocks;
    }

    /** The batched path: the base ends up as after the received entries in order. */
    method PutManyKeyed(blocks: seq<Block>) returns (r: Outcome<()>, ghost batches: seq<seq<Block>>)
      requires Valid()
      modifies this, base.go
      ensures Valid() && Greedy(batches)
      ensures r.Done? ==> Concat(batches) == blocks && ReceiveAll(blocks).Ok? && history == old(history) + blocks
                          && State() == Layers(over, Written(old(base.go.blocks), ReceiveAll(blocks).value))
      ensures !r.Done? ==> batches != [] && StoppedAt(blocks, batches)
      ensures !r.Done? ==>
                var sent := Concat(batches[..|batches| - 1]);
                && ReceiveAll(sent).Ok? && history == old(history) + sent
                && State() == Layers(over, Written(old(base.go.blocks), ReceiveAll(sent).value))
      ensures !r.Overrun? && (r.Panicked? <==> !base.go.Registered() && blocks != [])
      ensures r.Failed? ==> || ReceiveAll(batches[|batches| - 1]) == Err(r.code)
                            || (base.go.faults == old(base.go.faults) + 1 && r.code == IO)
      ensures base.go.Registered() && base.go.faults == old(base.go.faults) && ReceiveAll(blocks).Ok? ==> r.Done?
    {
      hide WriteCid, ReceiveAll, Greedy, StoppedAt, Written, PutReceived, Refused;
      r, batches := base.PutManyKeyed(blocks);
      ghost var done := if r.Done? then blocks else Concat(batches[..|batches| - 1]);
      BatchedIsSequential(done);
      Extend(done, old(base.go.log), ReceiveAll(done).value);
    }
  }

  lemma {:induction false} WrittenOne(m: map<Bytes, Bytes>, e: Entry)
    ensures Written(m, [e]) == m[e.key := e.data]
  {
    assert [e][..0] == [];
  }

  // ---------------------------------------------------------------- reads over whole histories

  function FakeAt(hasher: Hasher, k: Cid): Block -> bool {
    (b: Block) => b.cid == k && !Matches(hasher, b.cid, b.data)
  }

  function RealAt(hasher: Hasher, k: Cid): Block -> bool {
    (b: Block) => b.cid == k && Matches(hasher, b.cid, b.data) && Cut(b.data).Some?
  }

  function PutAt(k: Cid): Block -> bool {
    (b: Block) => b.cid == k
  }

  function EntryAt(k: Cid): Entry -> bool {
    (e: Entry) => e.key == WriteCid(k)
  }

  /**
    * A read finds the last put with a wrong hash, else the last put with the right one, cut to its
    * 32-bit length, else what the base held at first.
    */
  function Expected(hasher: Hasher, base0: map<Bytes, Bytes>, puts: seq<Block>, k: Cid): Outcome<Option<Bytes>> {
    match (LastWhere(puts, FakeAt(hasher, k)), LastWhere(puts, RealAt(hasher, k)))
    case (Some(i), _) => Done(Some(puts[i].data))
    case (None, Some(i)) => Done(Cut(puts[i].data))
    case (None, None) => Seen(Stored(base0, k))
  }

  lemma {:induction false} RunTop(hasher: Hasher, base0: map<Bytes, Bytes>, puts: seq<Block>, k: Cid)
    ensures var top := Run(hasher, Layers(map[], base0), puts).top;
            match LastWhere(puts, FakeAt(hasher, k))
            case Some(i) => k in top && top[k] == puts[i].data
            case None => k !in top
  {
    hide WriteCid;
    if puts != [] {
      RunTop(hasher, base0, puts[..|puts| - 1], k);
    }
  }

  lemma {:induction false} StepBase(hasher: Hasher, s: Layers, b: Block, k: Cid)
    ensures Stored(PutStep(hasher, s, b).base, k)
         == if RealAt(hasher, k)(b) then Cut(b.data) else Stored(s.base, k)
  {
    hide WriteCid;
    if WriteCid(b.cid) == WriteCid(k) {
      CidInjective(b.cid, k);
    }
  }

  lemma {:induction false} RunBase(hasher: Hasher, base0: map<Bytes, Bytes>, puts: seq<Block>, k: Cid)
    ensures Stored(Run(hasher, Layers(map[], base0), puts).base, k)
         == match LastWhere(puts, RealAt(hasher, k))
            case Some(i) => Cut(puts[i].data)
            case None => Stored(base0, k)
  {
    if puts != [] {
      var n := |puts| - 1;
      RunBase(hasher, base0, puts[..n], k);
      StepBase(hasher, Run(hasher, Layers(map[], base0), puts[..n]), puts[n], k);
      hide PutStep, Stored, RealAt, Cut;
    }
  }

  /** Over every history of keyed puts, every read is the expected one. */
  lemma {:induction false} ReadAfterRun(hasher: Hasher, base0: map<Bytes, Bytes>, puts: seq<Block>, k: Cid)
    ensures Read(Run(hasher, Layers(map[], base0), puts), k) == Expected(hasher, base0, puts, k)
  {
    RunTop(hasher, base0, puts, k);
    RunBase(hasher, base0, puts, k);
    hide WriteCid, Cut, Run, Stored;
    match LastWhere(puts, RealAt(hasher, k)) {
      case Some(i) => CutIff(puts[i].data);
      case None =>
    }
  }

  // ---------------------------------------------------------------- what each layer holds

  /** A new block in the base is what a put with the right hash handed over. */
  ghost predicate FromPut(hasher: Hasher, puts: seq<Block>, e: Entry) {
    exists b :: b in puts && Matches(hasher, b.cid, b.data) && PutReceived(b.cid, b.data) == Some(e)
  }

  lemma {:induction false} RunDivides(hasher: Hasher, base0: map<Bytes, Bytes>, puts: seq<Block>)
    ensures var s := Run(hasher, Layers(map[], base0), puts);
            && (forall k | k in s.top :: Block(k, s.top[k]) in puts && !Matches(hasher, k, s.top[k]))
            && (forall key | key in s.base ::
                  (key in base0 && s.base[key] == base0[key]) || FromPut(hasher, puts, Entry(key, s.base[key])))
            && base0.Keys <= s.base.Keys
  {
    hide WriteCid, Cut;
    if puts != [] {
      var n := |puts| - 1;
      RunDivides(hasher, base0, puts[..n]);
      assert forall b :: b in puts <==> b in puts[..n] || b == puts[n];
      assert puts[n] in puts;
    }
  }

  /**
    * The layers divide the writes: every block in memory was put and has the wrong hash, and every
    * new block in the base is what a put with the right hash handed over.
    */
  lemma {:induction false} LayersDivide(hasher: Hasher, base0: map<Bytes, Bytes>, puts: seq<Block>)
    ensures var s := Run(hasher, Layers(map[], base0), puts);
            && (forall k | k in s.top ::
                  Block(k, s.top[k]) in puts && hasher(k.hash.code, s.top[k]) != Some(k.hash.digest))
            && (forall key | key in s.base ::
                  || (key in base0 && s.base[key] == base0[key])
                  || exists b :: b in puts && hasher(b.cid.hash.code, b.data) == Some(b.cid.hash.digest)
                              && PutReceived(b.cid, b.data) == Some(Entry(key, s.base[key])))
            && base0.Keys <= s.base.Keys
  {
    hide Run, PutReceived;
    RunDivides(hasher, base0, puts);
    var s := Run(hasher, Layers(map[], base0), puts);
    forall key | key in s.base && !(key in base0 && s.base[key] == base0[key])
      ensures exists b :: b in puts && hasher(b.cid.hash.code, b.data) == Some(b.cid.hash.digest)
                       && PutReceived(b.cid, b.data) == Some(Entry(key, s.base[key]))
    {
      var b :| && b in puts && Matches(hasher, b.cid, b.data)
               && PutReceived(b.cid, b.data) == Some(Entry(key, s.base[key]));
    }
  }

  /** Below 2^31 bytes, every new block in the base was put there as it is and matches its CID. */
  lemma {:induction false} BaseMatches(hasher: Hasher, base0: map<Bytes, Bytes>, puts: seq<Block>, key: Bytes)
    requires forall b | b in puts && Matches(hasher, b.cid, b.data) :: |b.data| < TWO_31
    requires key in Run(hasher, Layers(map[], base0), puts).base
    ensures var base := Run(hasher, Layers(map[], base0), puts).base;
            || (key in base0 && base[key] == base0[key])
            || exists b :: b in puts && WriteCid(b.cid) == key && b.data == base[key]
                        && hasher(b.cid.hash.code, base[key]) == Some(b.cid.hash.digest)
  {
    var base := Run(hasher, Layers(map[], base0), puts).base;
    RunDivides(hasher, base0, puts);
    hide WriteCid, Run;
    if !(key in base0 && base[key] == base0[key]) {
      var b :| && b in puts && Matches(hasher, b.cid, b.data)
               && PutReceived(b.cid, b.data) == Some(Entry(key, base[key]));
      CutIff(b.data);
    }
  }

  /** No other data has the digest that `k` names. */
  ghost predicate Collisionless(hasher: Hasher, k: Cid, data: Bytes) {
    forall other :: Matches(hasher, k, other) ==> other == data
  }

  /**
    * The bound is exact. The base ends up with the last matching put of a CID that was taken, and that
    * block is whole if and only if it is shorter than 2^31 bytes; without hash collisions it otherwise
    * no longer matches its CID. Every matching put in the history of a store was taken.
    */
  lemma {:induction false} StoredWholeIff(hasher: Hasher, base0: map<Bytes, Bytes>, puts: seq<Block>, k: Cid)
    requires LastWhere(puts, RealAt(hasher, k)).Some?
    ensures var base, put := Run(hasher, Layers(map[], base0), puts).base,
                             puts[LastWhere(puts, RealAt(hasher, k)).value];
            && WriteCid(k) in base
            && (base[WriteCid(k)] == put.data <==> |put.data| < TWO_31)
            && (|put.data| < TWO_31 ==> Matches(hasher, k, base[WriteCid(k)]))
            && (Collisionless(hasher, k, put.data) ==>
                  (Matches(hasher, k, base[WriteCid(k)]) <==> |put.data| < TWO_31))
  {
    RunBase(hasher, base0, puts, k);
    CutIff(puts[LastWhere(puts, RealAt(hasher, k)).value].data);
    hide WriteCid, Cut, Run;
  }

  /**
    * A block of 2^32 bytes with the right hash is stored empty, and what is stored matches exactly if
    * the empty block does; without hash collisions it does not.
    */
  lemma {:induction false} CutBlockMismatch(hasher: Hasher, s: Layers, c: Cid, data: Bytes)
    requires Matches(hasher, c, data) && |data| == TWO_32
    ensures var base := Run(hasher, s, [Block(c, data)]).base;
            && base == s.base[WriteCid(c) := []]
            && (Matches(hasher, c, base[WriteCid(c)]) <==> Matches(hasher, c, []))
            && (Collisionless(hasher, c, data) ==> !Matches(hasher, c, base[WriteCid(c)]))
  {
    hide WriteCid;
    assert data[..0] == [];
    assert [Block(c, data)][..0] == [];
    assert data != [];
  }

  // ---------------------------------------------------------------- after `finish`

  /** What the base holds after any log of writes: the last one under the key, else what was there. */
  lemma {:induction false} StoredAfterLog(base: map<Bytes, Bytes>, log: seq<Entry>, k: Cid)
    ensures Stored(Written(base, log), k)
         == match LastWhere(log, EntryAt(k))
            case Some(i) => Some(log[i].data)
            case None => Stored(base, k)
  {
    hide WriteCid;
    if log != [] {
      StoredAfterLog(base, log[..|log| - 1], k);
    }
  }

  /** The top, else the last write of the log, else the base. */
  function AfterLog(s: Layers, log: seq<Entry>, k: Cid): Outcome<Option<Bytes>> {
    if k in s.top then Done(Some(s.top[k]))
    else match LastWhere(log, EntryAt(k))
      case Some(i) => Seen(Some(log[i].data))
      case None => Seen(Stored(s.base, k))
  }

  lemma {:induction false} ReadAfterLog(s: Layers, log: seq<Entry>, k: Cid)
    ensures Read(Layers(s.top, Written(s.base, log)), k) == AfterLog(s, log, k)
  {
    hide WriteCid;
    StoredAfterLog(s.base, log, k);
  }

  /** The top, else the last put cut to its 32-bit length, else the base. */
  function Later(s: Layers, later: seq<Block>, k: Cid): Outcome<Option<Bytes>> {
    if k in s.top then Done(Some(s.top[k]))
    else match LastWhere(later, PutAt(k))
      case Some(i) => Done(Cut(later[i].data))
      case None => Seen(Stored(s.base, k))
  }

  /** The log of puts has its last write under a key where the last put of the CID is. */
  lemma {:induction false} SameLast(later: seq<Block>, log: seq<Entry>, k: Cid)
    requires PutsReceived(later, log)
    ensures LastWhere(log, EntryAt(k)) == LastWhere(later, PutAt(k))
  {
    hide WriteCid, Cut;
    forall i | 0 <= i < |later| ensures EntryAt(k)(log[i]) <==> PutAt(k)(later[i]) {
      assert PutReceived(later[i].cid, later[i].data) == Some(log[i]);
      if WriteCid(later[i].cid) == WriteCid(k) {
        CidInjective(later[i].cid, k);
      }
    }
    hide PutsReceived, EntryAt, PutAt;
  }

  lemma {:induction false} ReadAfterPuts(s: Layers, later: seq<Block>, log: seq<Entry>, k: Cid)
    requires PutsReceived(later, log)
    ensures Read(Layers(s.top, Written(s.base, log)), k) == Later(s, later, k)
  {
    ReadAfterLog(s, log, k);
    SameLast(later, log, k);
    hide WriteCid, Cut, Written, Read, Stored, EntryAt;
    match LastWhere(later, PutAt(k)) {
      case Some(i) =>
        assert PutReceived(later[i].cid, later[i].data) == Some(log[i]);
        CutIff(later[i].data);
      case None =>
    }
  }

  /**
    * The life of a machine's store: puts while it is created, `finish`, then any writes through the
    * overlay. A wrong-hash block of the first phase is never hidden again; any other key reads as the
    * last write in the second phase, else as it did at `finish`.
    */
  lemma {:induction false} ReadAfterFinish(
    hasher: Hasher, base0: map<Bytes, Bytes>, puts: seq<Block>, log: seq<Entry>, k: Cid
  )
    ensures var s := Run(hasher, Layers(map[], base0), puts);
            Read(Layers(s.top, Written(s.base, log)), k) ==
            match (LastWhere(puts, FakeAt(hasher, k)), LastWhere(log, EntryAt(k)))
            case (Some(i), _) => Done(Some(puts[i].data))
            case (None, Some(j)) => Seen(Some(log[j].data))
            case (None, None) => Expected(hasher, base0, puts, k)
  {
    var s := Run(hasher, Layers(map[], base0), puts);
    RunTop(hasher, base0, puts, k);
    ReadAfterRun(hasher, base0, puts, k);
    ReadAfterLog(s, log, k);
    hide WriteCid, Written, Stored, Run;
  }

  /** The same with the second phase given by its puts: what an overlay made at `finish` reads. */
  lemma {:induction false} LaterAfterFinish(
    hasher: Hasher, base0: map<Bytes, Bytes>, puts: seq<Block>, later: seq<Block>, k: Cid
  )
    ensures Later(Run(hasher, Layers(map[], base0), puts), later, k) ==
            match (LastWhere(puts, FakeAt(hasher, k)), LastWhere(later, PutAt(k)))
            case (Some(i), _) => Done(Some(puts[i].data))
            case (None, Some(j)) => Done(Cut(later[j].data))
            case (None, None) => Expected(hasher, base0, puts, k)
  {
    RunTop(hasher, base0, puts, k);
    ReadAfterRun(hasher, base0, puts, k);
    hide WriteCid, Stored, Run, Cut;
  }
}
