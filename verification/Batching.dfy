/** How the batched writer of rust/src/fvm/blockstore/cgo.rs cuts a list of blocks into batches. */
module Batching {
  import opened Common
  import opened Cids
  import opened Framing

  const MAX_BUF_SIZE: nat := 0x40_0000
  const MAX_BLOCK_BATCH: nat := 1024
  const EST_MAX_CID_LEN: nat := 100

  /** The writer's test for adding `b` to the buffered blocks without flushing them first. */
  predicate Fits(batch: seq<Block>, b: Block) {
    |batch| < MAX_BLOCK_BATCH && EST_MAX_CID_LEN + |b.data| + |Frames(batch)| <= MAX_BUF_SIZE
  }

  /** Every block after the first passed the test when it was added. */
  ghost predicate Packed(batch: seq<Block>) {
    var n := |batch| - 1;
    n >= 0 && (n == 0 || (Packed(batch[..n]) && Fits(batch[..n], batch[n])))
  }

  /** No batch could have taken the first block of the next one. */
  ghost predicate Greedy(batches: seq<seq<Block>>) {
    var n := |batches| - 1;
    n < 0 || (Greedy(batches[..n]) && Packed(batches[n]) && (n == 0 || !Fits(batches[n - 1], batches[n][0])))
  }

  lemma {:induction false} PackedNonEmpty(batch: seq<Block>)
    requires Packed(batch)
    ensures batch != []
  {
  }

  lemma {:induction false} PackedAt(batch: seq<Block>, j: nat)
    requires Packed(batch) && 0 < j < |batch|
    ensures Fits(batch[..j], batch[j])
  {
    hide WriteCid;
    var n := |batch| - 1;
    if j < n {
      PackedAt(batch[..n], j);
      assert batch[..n][..j] == batch[..j];
    }
  }

  lemma {:induction false} GreedyAt(batches: seq<seq<Block>>, i: nat)
    requires Greedy(batches) && i < |batches|
    ensures Packed(batches[i]) && (i > 0 ==> !Fits(batches[i - 1], batches[i][0]))
  {
    hide WriteCid;
    var n := |batches| - 1;
    if i < n {
      GreedyAt(batches[..n], i);
    }
  }

  lemma {:induction false} GreedyTail(batches: seq<seq<Block>>)
    requires Greedy(batches) && batches != []
    ensures Greedy(batches[1..])
  {
    hide WriteCid;
    var n := |batches| - 1;
    if n > 0 {
      GreedyTail(batches[..n]);
      assert batches[1..][..n - 1] == batches[..n][1..];
      assert n > 1 ==> batches[1..][n - 2] == batches[n - 1];
    }
  }

  /** The limits of a batch: with each block after the first it stays within 1024 blocks and 4 MiB. */
  lemma {:induction false} PackedIff(batch: seq<Block>)
    ensures Packed(batch) <==>
            && 1 <= |batch| <= 1024
            && forall j | 0 < j < |batch| :: 100 + |batch[j].data| + |Frames(batch[..j])| <= 4194304
  {
    hide WriteCid, Frames;
    var n := |batch| - 1;
    if n >= 0 {
      assert batch[..n + 1] == batch;
    }
    if n > 0 {
      var front := batch[..n];
      PackedIff(front);
      assert forall j | 0 < j < n :: front[j] == batch[j] && front[..j] == batch[..j];
    }
  }

  /**
    * The batches of a run in numbers: each has 1 to 1024 blocks and with every further block at most
    * 4 MiB by the estimate of 100 bytes for a CID, and no batch has room for the first block of the next.
    */
  lemma {:induction false} GreedyIff(xs: seq<seq<Block>>)
    ensures Greedy(xs) <==>
            && (forall i | 0 <= i < |xs| :: 1 <= |xs[i]| <= 1024)
            && (forall i, j | 0 <= i < |xs| && 0 < j < |xs[i]| ::
                  100 + |xs[i][j].data| + |Frames(xs[i][..j])| <= 4194304)
            && (forall i | 0 <= i < |xs| - 1 && xs[i + 1] != [] ::
                  |xs[i]| == 1024 || 100 + |xs[i + 1][0].data| + |Frames(xs[i])| > 4194304)
  {
    hide WriteCid, Frames, Packed;
    var n := |xs| - 1;
    if n >= 0 {
      PackedIff(xs[n]);
      GreedyIff(xs[..n]);
      if n > 0 && xs[n] != [] {
        assert xs[n - 1] == xs[..n][n - 1];
      }
    }
  }

  /** A batch holds at most 1024 blocks, and at most 4 MiB unless it is a single block. */
  lemma {:induction false} PackedBounds(batch: seq<Block>)
    requires Packed(batch)
    ensures 1 <= |batch| <= 1024
    ensures |batch| == 1 || |Frames(batch)| <= 4194304
  {
    hide WriteCid;
    PackedIff(batch);
    if |batch| > 1 {
      var n := |batch| - 1;
      assert batch == batch[..n] + [batch[n]];
      BatchSnoc(batch[..n], batch[n]);
      CidLen(batch[n].cid);
    }
  }

  /** The bounds hold for every batch sent. */
  lemma {:induction false} GreedyBounds(batches: seq<seq<Block>>)
    requires Greedy(batches)
    ensures forall i | 0 <= i < |batches| ::
              && 1 <= |batches[i]| <= 1024
              && (|batches[i]| == 1 || |Frames(batches[i])| <= 4194304)
  {
    hide WriteCid, Packed, Greedy, Frames;
    forall i | 0 <= i < |batches|
      ensures 1 <= |batches[i]| <= 1024 && (|batches[i]| == 1 || |Frames(batches[i])| <= 4194304)
    {
      GreedyAt(batches, i);
      PackedBounds(batches[i]);
    }
  }

  lemma {:induction false} FrameInFrames(bs: seq<Block>, i: nat)
    requires i < |bs|
    ensures |Frame(bs[i])| <= |Frames(bs)|
  {
    hide WriteCid;
    BatchCons(bs);
    if i > 0 {
      FrameInFrames(bs[1..], i - 1);
    }
  }

  /** Go's lengths are right for every batch: only a block that travels alone can overflow them. */
  lemma {:induction false} PackedCarriable(batch: seq<Block>)
    requires Packed(batch)
    ensures Carriable(batch)
  {
    hide WriteCid;
    PackedBounds(batch);
    if |batch| > 1 {
      forall i | 0 <= i < |batch| ensures |Frame(batch[i])| < TWO_31 {
        FrameInFrames(batch, i);
      }
    }
  }

  lemma {:induction false} PackedSnoc(batch: seq<Block>, b: Block)
    requires batch == [] || (Packed(batch) && Fits(batch, b))
    ensures Packed(batch + [b])
  {
    hide WriteCid;
    assert (batch + [b])[..|batch|] == batch;
  }

  lemma {:induction false} GreedySnoc(batches: seq<seq<Block>>, batch: seq<Block>)
    requires Greedy(batches) && Packed(batch)
    requires batches != [] ==> !Fits(batches[|batches| - 1], batch[0])
    ensures Greedy(batches + [batch])
  {
    hide WriteCid;
    assert (batches + [batch])[..|batches|] == batches;
  }

  /** The first batch ends at the first block that would exceed 1024 blocks or 4 MiB by the estimate. */
  lemma {:induction false} FirstBoundary(xs: seq<seq<Block>>)
    requires Greedy(xs) && xs != []
    ensures var all, n := Concat(xs), |xs[0]|;
            && 0 < n <= |all| && all[..n] == xs[0] && all[n..] == Concat(xs[1..])
            && (n < |all| ==> n >= 1024 || 100 + |all[n].data| + |Frames(all[..n])| > 4194304)
            && forall j | 0 < j < n :: j < 1024 && 100 + |all[j].data| + |Frames(all[..j])| <= 4194304
  {
    hide WriteCid, Frames;
    var all, n := Concat(xs), |xs[0]|;
    GreedyAt(xs, 0);
    PackedNonEmpty(xs[0]);
    assert all[..n] == xs[0] && all[n..] == Concat(xs[1..]);
    if |xs| > 1 {
      GreedyAt(xs, 1);
      PackedNonEmpty(xs[1]);
      assert xs[1..][0] == xs[1];
      assert all[n] == Concat(xs[1..])[0] == xs[1][0];
    }
    forall j | 0 < j < n ensures Fits(all[..j], all[j]) {
      assert all[..j] == xs[0][..j];
      PackedAt(xs[0], j);
    }
  }

  /** The batches of a list are determined by the two limits alone. */
  lemma {:induction false} GreedyUnique(xs: seq<seq<Block>>, ys: seq<seq<Block>>)
    requires Greedy(xs) && Greedy(ys) && Concat(xs) == Concat(ys)
    ensures xs == ys
  {
    hide WriteCid;
    if xs != [] {
      FirstBoundary(xs);
    }
    if ys != [] {
      FirstBoundary(ys);
    }
    if xs != [] && ys != [] {
      assert xs[0] == ys[0];
      GreedyTail(xs);
      GreedyTail(ys);
      GreedyUnique(xs[1..], ys[1..]);
      assert xs == [xs[0]] + xs[1..] && ys == [ys[0]] + ys[1..];
    }
  }
}
