# A model of the Go/Rust bridge of filecoin-ffi

The repository joins a Go client to Rust libraries. The cryptography and the Filecoin virtual machine
live in those libraries; the bridge itself parses, packs, layers, counts and frees. This project models
those parts in Dafny and proves what they promise each other.

| file | what it models |
|---|---|
| `Common.dfy` | bytes, results and facts about sequences |
| `Trace.dfy`, `TraceTheorems.dfy` | the builder that turns a flat list of execution events into a call trace |
| `Cids.dfy` | varints, multihashes and CIDs on the wire |
| `Framing.dfy` | frames and batches of blocks, the 32-bit lengths, and Go's decoder as a function |
| `Batching.dfy` | how the batched writer cuts a list of blocks |
| `CgoBlockstores.dfy` | the Go store with its exported functions and the Rust store that calls them |
| `LayeredStores.dfy` | the "fake" and overlay stores above it |
| `BigInts.dfy` | 128-bit token amounts as two words |
| `Registries.dfy`, `Lifecycle.dfy` | handles, machines and finalizers, first as objects, then as interleaved steps |
| `Callbacks.dfy` | the Rust store's operations at the callbacks of such an interleaving |
| `Bls.dfy` | flattening in Go and splitting in Rust |
| `Sectors.dfy` | deduplicated, sorted and split sector lists, and the ordered replica maps |
| `Aggregation.dfy` | the parallel reduction of aggregation inputs |
| `Ownership.dfy` | who frees the boxed slices |

## How to read it

Code that changes things step by step is a method over a class or an array, and its contract ties the
new state to a function of the old one; the lemmas are about those functions. Parts that Rust or Go
call in foreign libraries are parameters (`Hasher`, `Lib`, `Conv`, `machine`, `toVec`, `pathOk`, `prove`),
and so is what the client's store does: `answers` says whether it answers a read, `accepts` which of its
writes it takes. The main results are stated in numbers and over the source's own data rather than by the
names of the definitions they are about.

Assumptions about what is outside the repository:

- The client's store is a map from CID bytes to data. An operation may fail at any time, and a failed
  write changes nothing. `PutMany` writes its blocks in order. While a fake or an overlay store is in
  use nothing else writes to the store below it.
- CIDs follow the multiformats CID specification ("Decoding Algorithm") and varints the unsigned-varint
  specification: Go reads at most nine bytes of a varint and only the shortest form, Rust writes any
  64-bit number. A digest has at most 64 bytes, the capacity of Rust's `Cid`.
- Execution events are calls, returns, or something else (`Other`). The exit code numbers are those of
  the `fvm_shared` crate. Neither library is part of this model.
- Go's runtime runs finalizers one after the other on one goroutine, so testing and taking the executor
  (fvm.go:80-85) is one step. Finalizers may otherwise run at any time when no call is running, and any
  number of times. No call starts on a machine whose executor a finalizer took: the machine is then
  unreachable for its client.
- `sort.Slice` returns some sorted permutation. A BTreeMap walks its keys in ascending order.
- Go's slices and Rust's buffers are sequences or arrays; reading raw memory means reading a prefix of
  the buffer, and the contracts show that the prefix exists.

## What the proofs found

- The batched path takes a block exactly when its CID is readable and the 32-bit length of its frame
  covers the CID and is at most 2^30 (`Framing.ReceivedExactly`); a CID whose codec or hash code needs all
  64 bits is not readable. Whatever it takes, a single put takes just the same, so two stores with equal
  contents stay equal when both ways succeed (`CgoBlockstores.ReceivedAsPut`, `CgoBlockstores.BothWays`).
  The converse fails: below 2^31 bytes a single put stores data of more than 2^30 bytes, and data under
  unreadable CIDs, that the batched path refuses (`CgoBlockstores.LargePutOnly`); `CgoBlockstores.OnlyAsPut`
  gives the exact condition.
- The cast to a 32-bit length wraps. From 2^31 bytes on a block is refused or cut, on both paths, and a
  block of 2^32 bytes is stored without its data while the call reports success
  (`Framing.LargeBlockLosesData`). The same cast in the other direction cuts a stored block when it is
  read, or makes a vector that claims more bytes than there are: a block of 2^32 bytes reads as empty, one
  of 2^31 bytes overruns (`LayeredStores.LargeBlocksSeen`; `LayeredStores.SeenIff` has the conditions).
- So "blocks with the right hash go to the base" does not mean that the base holds right blocks: a
  matching block of 2^32 bytes is stored empty and no longer matches (`LayeredStores.CutBlockMismatch`).
  It holds for puts below 2^31 bytes (`LayeredStores.BaseMatches`), and that bound is exact
  (`LayeredStores.StoredWholeIff`).
- The guess that no CID exceeds 100 bytes always holds (`Cids.CidLen`), so the 4 MiB limit holds for
  every batch of two or more blocks without a condition on the CIDs.
- When machine creation fails the handle stays registered for good; at rest the registry holds exactly
  those handles (`Lifecycle.AtRest`).
- Externs that are nil can be registered, and their callbacks are then told that the handle is invalid;
  no other callback is (`Lifecycle.CallbacksFindExterns`), and so exactly their operations panic
  (`Callbacks.PerformAtCallback`).
- The comment at types.go:54-55 says that private sectors are sorted by CID; the code sorts them by
  sector number, and so does the model.

## Model

| member | source | states |
|---|---|---|
| `Trace.EventIter.Next` | rust/src/fvm/machine.rs:287 | the shared iterator gives the first unread event and drops it |
| `Trace.BuildLotusTrace` | rust/src/fvm/machine.rs:256-345 | the loop over the shared iterator returns the result of the recursive specification and leaves the iterator at the events it left unread, on success and on every error; it terminates |
| `Trace.ReportTrace` | rust/src/fvm/machine.rs:151-164 | no trace for no events, a failed build or a failed encoding, otherwise the encoded trace of the first call; later events are ignored |
| `Trace.ExitCodeOf` | rust/src/fvm/machine.rs:310-323 | insufficient funds has code 6, not found 5, every other syscall error 10 |
| `TraceTheorems.ParseInvertsPrint` | rust/src/fvm/machine.rs:256-345 | for every call tree without a success-coded failure and every suffix, building from the printed tree gives its translation and stops exactly at the suffix |
| `TraceTheorems.BodyInvertsPrint` | rust/src/fvm/machine.rs:287-341 | reading printed subcalls appends their traces in order and changes nothing else |
| `TraceTheorems.ParseSound` | rust/src/fvm/machine.rs:256-345 | whatever is accepted is a printed tree followed by the unread events, and the trace is that tree's translation |
| `TraceTheorems.AcceptsPrintedTrees` | rust/src/fvm/machine.rs:256-345 | accepted inputs are exactly the printed clean trees followed by anything |
| `TraceTheorems.BuilderMatchesScan` | rust/src/fvm/machine.rs:287-344 | success, the kind of error and the unread events are those of a scan that only counts open calls |
| `TraceTheorems.ScanCloses` | rust/src/fvm/machine.rs:287-344 | the scan stops after n events exactly when the first n are the shortest balanced prefix and all are calls or sound returns |
| `TraceTheorems.ExecTraceIff` | rust/src/fvm/machine.rs:151-161 | a trace is built if and only if the events start with a call and have a shortest balanced prefix of calls and sound returns |
| `TraceTheorems.ExecTraceOfPrint` | rust/src/fvm/machine.rs:151-161 | from the events of any clean call tree, whatever follows, exactly that tree's trace is built, with an empty error text in every node |
| `TraceTheorems.ExecTraceContents` | rust/src/fvm/machine.rs:260-333 | the messages in preorder are the consumed calls in order, the receipts in postorder the consumed returns in order; a receipt is OK exactly for a normal return, only that one has data, and failures keep their code |
| `TraceTheorems.PrintUnique` | rust/src/fvm/machine.rs:256-345 | printing is uniquely decodable: two call trees, clean or not, with suffixes that form the same stream are the same tree and the same suffix |
| `TraceTheorems.BodyUnique` | rust/src/fvm/machine.rs:287-341 | the same for lists of subcalls followed by a return |
| `Cids.VarintRoundTrip` | cgo/blockstore.go:106 | a written number reads back, whatever follows, exactly when nine bytes are enough |
| `Cids.VarintDigits` | rust/src/fvm/blockstore/cgo.rs:125 | the bytes are the base-128 digits, lowest first, marked except for the last, without a zero at the end |
| `Cids.CidRoundTrip` | cgo/blockstore.go:105-110 | a written CID is found again whatever data follows it, except that 64-bit codes are refused |
| `Cids.CutCidUnreadable` | cgo/blockstore.go:105-109 | no proper prefix of a CID reads as a CID |
| `Cids.CidInjective` | rust/src/fvm/blockstore/cgo.rs:134 | different CIDs never have the same bytes, so they are different keys in Go |
| `Cids.CidLen` | rust/src/fvm/blockstore/cgo.rs:15-17 | every CID takes between 4 and 86 bytes, within the estimate of 100 |
| `Cids.CidBytes` | rust/src/fvm/blockstore/cgo.rs:125 | the layout of version 0 and version 1 in bytes |
| `Cids.ReadCidIff` | cgo/blockstore.go:105-109 | exactly what Go takes for a CID at the front of a buffer, for all buffers: the encodings with codes below 2^63, version 0 only with a SHA2-256 digest |
| `Framing.AsI32` | rust/src/fvm/blockstore/cgo.rs:128 | the cast to i32 keeps a size modulo 2^32 in the signed range, is the identity exactly below 2^31 and never grows a size |
| `Framing.CutIff` | rust/src/fvm/blockstore/cgo.rs:133-142 | all data goes through under a 32-bit length exactly below 2^31 bytes, and what went through once goes through again |
| `Framing.DecodeOne` | cgo/blockstore.go:99-114 | an accepted frame has a length between 0 and 2^30 and its key and data are the frame's bytes; the code is -5 for a negative length and -4 for every other refusal |
| `Framing.DecodeAllAt` | cgo/blockstore.go:96-123 | every entry of an accepted batch was read at the sum of the earlier lengths, and there is one for every length |
| `Framing.DecodeAllIff` | cgo/blockstore.go:96-123 | a batch is refused, all of it, if and only if some frame is too long, negative or without a CID at its offset |
| `Framing.DecodeWritten` | cgo/blockstore.go:96-123 | on a batch written by Rust Go stays inside the buffer and reads each block as if it came alone |
| `Framing.ReceivedExactly` | cgo/blockstore.go:98-114 | a block is accepted if and only if its CID is readable and the length Go is told covers the CID and is at most 2^30; which data is then kept, for every size including wrapped lengths |
| `Framing.IntactIff` | cgo/blockstore.go:98-114 | a block arrives intact if and only if its CID is readable and its frame is at most 2^30 bytes |
| `Framing.LargeBlockLosesData` | rust/src/fvm/blockstore/cgo.rs:127-128 | a block of 2^32 bytes is accepted and stored empty |
| `Framing.AllIntact` | rust/src/fvm/blockstore/cgo.rs:112-130 | a list arrives without loss, repetition or reordering exactly when each CID is readable and each frame is at most 2^30 bytes |
| `Batching.PackedBounds` | rust/src/fvm/blockstore/cgo.rs:9-17 | a batch has 1 to 1024 blocks, and at most 4194304 bytes or a single block |
| `Batching.GreedyBounds` | rust/src/fvm/blockstore/cgo.rs:112-122 | those bounds for every batch of a run |
| `Batching.GreedyIff` | rust/src/fvm/blockstore/cgo.rs:112-122 | the batches of a run in numbers, both ways: 1 to 1024 blocks each; every further block fits into 4194304 bytes with 100 for its CID; and the next batch's first block would exceed 1024 blocks or those bytes |
| `Batching.PackedCarriable` | rust/src/fvm/blockstore/cgo.rs:118-128 | only a block that travels alone can overflow its 32-bit length |
| `Batching.FirstBoundary` | rust/src/fvm/blockstore/cgo.rs:118-122 | the first batch ends at the first block that would exceed 1024 blocks or 4194304 bytes with 100 for its CID |
| `Batching.GreedyUnique` | rust/src/fvm/blockstore/cgo.rs:112-130 | the two limits alone determine the batches of a list |
| `CgoBlockstores.DecodeBatch` | cgo/blockstore.go:96-123 | the loop over a moving offset computes the recursive decoder; the offset is the sum of the lengths read |
| `CgoBlockstores.GoStore.CgoPutMany` | cgo/blockstore.go:79-128 | all or nothing: the return code in numbers for every outcome, and the store written only with the whole decoded batch |
| `CgoBlockstores.GoStore.CgoPut` | cgo/blockstore.go:58-76 | the return code in numbers for every outcome, a negative length panicking; the entry is written exactly when the store accepts it |
| `CgoBlockstores.GoStore.CgoGet` | cgo/blockstore.go:27-55 | the return code exactly: -1 for an unregistered handle, -3 only if the store does not answer, otherwise 0 with the whole block and its size cast to 32 bits, or -2, for stored blocks of any size |
| `CgoBlockstores.GoStore.CgoHas` | cgo/blockstore.go:131-157 | the return code exactly: -1 for an unregistered handle, -3 only if the store does not answer, otherwise 1 for a stored key and 0 for any other |
| `CgoBlockstores.Buffer.Append` | rust/src/fvm/blockstore/cgo.rs:124-128 | the two vectors stay the lengths and the frames of the buffered blocks |
| `CgoBlockstores.Buffer.Flush` | rust/src/fvm/blockstore/cgo.rs:82-108 | sends the buffered blocks as one call and clears both vectors on every outcome; a failed batch writes nothing |
| `CgoBlockstores.Buffer.Add` | rust/src/fvm/blockstore/cgo.rs:112-129 | one turn of the loop: flush exactly when the block does not fit and something is buffered |
| `CgoBlockstores.CgoBlockstore.PutManyKeyed` | rust/src/fvm/blockstore/cgo.rs:76-131 | the calls made are the greedy batches; success writes every received block once and in order; failure stops at a batch boundary with exactly the earlier batches written; it succeeds if the handle is registered, no write is refused and every block is received, and panics only for an unregistered handle |
| `CgoBlockstores.CgoBlockstore.PutKeyed` | rust/src/fvm/blockstore/cgo.rs:133-153 | the result exactly: a panic for an unregistered handle, an error for a size that is negative after the cast or a write that the store refuses, otherwise success with the received entry written |
| `CgoBlockstores.CgoBlockstore.Get` | rust/src/fvm/blockstore/cgo.rs:53-74 | the result exactly: a panic for an unregistered handle, an error only if the store does not answer, none for a missing key, otherwise the stored block as far as its 32-bit size goes, or a vector that overruns its buffer if that size is negative |
| `CgoBlockstores.CgoBlockstore.Has` | rust/src/fvm/blockstore/cgo.rs:31-51 | the result exactly: a panic for an unregistered handle, an error only if the store does not answer, otherwise whether the key is stored |
| `CgoBlockstores.PutReceivedIff` | rust/src/fvm/blockstore/cgo.rs:133-142 | a single put is faithful exactly below 2^31 bytes, and taken exactly if the size is not negative after the cast |
| `CgoBlockstores.ReceivedAsPut` | rust/src/fvm/blockstore/cgo.rs:124-142 | whatever the batched path takes of a block, whole or cut, a single put takes just the same |
| `CgoBlockstores.OnlyAsPut` | rust/src/fvm/blockstore/cgo.rs:124-142 | a single put takes a block that the batched path refuses if and only if the size of the data is not negative after the cast and the block is not accepted |
| `CgoBlockstores.LargePutOnly` | rust/src/fvm/blockstore/cgo.rs:124-142 | below 2^31 bytes, data of more than 2^30 bytes or under an unreadable CID is stored whole by a single put and refused by the batched path |
| `CgoBlockstores.BatchedIsSequential` | rust/src/fvm/blockstore/cgo.rs:76-131 | a list is received in whole if and only if every CID is readable and every frame's 32-bit length covers its CID and is at most 2^30; what is then handed over is what one put after another hands over |
| `CgoBlockstores.PutEach` | rust/src/fvm/blockstore/cgo.rs:133-153 | the reference: single puts in a loop write what they hand over in order, up to the first that fails, and fail only for a handle, a refused write or a negative length |
| `CgoBlockstores.BothWays` | rust/src/fvm/blockstore/cgo.rs:76-153 | two stores with equal contents, one written in batches and one block by block, hold equal blocks if both succeed, for all CIDs and sizes; the batched one succeeds if its handle is registered, no write is refused and every block is accepted, and then so does the other unless it is refused |
| `CgoBlockstores.ProgressSend` | rust/src/fvm/blockstore/cgo.rs:118-130 | sending the buffered blocks keeps the batches greedy and covers exactly the blocks read so far |
| `LayeredStores.SeenIff` | rust/src/fvm/blockstore/cgo.rs:53-74 | a read gives a stored block whole exactly below 2^31 bytes, and overruns exactly when its 32-bit size is negative |
| `LayeredStores.LargeBlocksSeen` | rust/src/fvm/blockstore/cgo.rs:53-74 | a read of a stored block of 2^31 bytes overruns, one of 2^32 bytes gives the empty block |
| `LayeredStores.FakeBlockstore.Get` | rust/src/fvm/blockstore/fake.rs:36-41 | the in-memory block if there is one; otherwise the base read, which fails only if the handle is unregistered or the store does not answer; after any mix of calls, failed ones included, the read is the one expected from the puts that succeeded |
| `LayeredStores.FakeBlockstore.Has` | rust/src/fvm/blockstore/fake.rs:56-58 | true exactly when memory or the base holds the key, and exactly when the history makes one expect it; it fails only if the handle is unregistered or the store does not answer |
| `LayeredStores.FakeBlockstore.PutKeyed` | rust/src/fvm/blockstore/fake.rs:43-54 | a block whose hash is not its CID's goes to memory and always succeeds; any other is written to the base, cut at its 32-bit length, unless the handle is unregistered, the length negative or the write refused, and then nothing changes |
| `LayeredStores.FakeBlockstore.PutManyKeyed` | rust/src/fvm/blockstore/fake.rs:81-91 | the run of the single puts, or of those before the first that failed, which had the right hash; it succeeds if the handle is registered, no write is refused and no length is negative, and each kind of failure has its reason |
| `LayeredStores.FakeBlockstore.Finish` | rust/src/fvm/blockstore/fake.rs:97-99 | the overlay's layers, and so all its reads, are those of the fake store, and they are the run of its history |
| `LayeredStores.OverlayBlockstore.Get` | rust/src/fvm/blockstore/overlay.rs:32-37 | the overlay's block if there is one; otherwise the base read, which fails only if the handle is unregistered or the store does not answer; after any mix of single and batched puts that is the last put of the key cut to its 32-bit length, else the base as it was at first |
| `LayeredStores.OverlayBlockstore.Has` | rust/src/fvm/blockstore/overlay.rs:43-45 | true exactly when the overlay or the base holds the key, and exactly when the puts since its creation make one expect it; it fails only if the handle is unregistered or the store does not answer |
| `LayeredStores.OverlayBlockstore.PutKeyed` | rust/src/fvm/blockstore/overlay.rs:39-41 | writes the base, whatever the hash, and leaves the overlay as it is; it fails only for an unregistered handle, a negative length or a refused write, and then nothing changes |
| `LayeredStores.OverlayBlockstore.PutManyKeyed` | rust/src/fvm/blockstore/overlay.rs:68-75 | the batched write to the base under an unchanged overlay, with its prefix and the reason on failure; it succeeds if the handle is registered, no write is refused and all blocks are received |
| `LayeredStores.RunAppend` | rust/src/fvm/blockstore/fake.rs:81-91 | the puts of several calls are one run |
| `LayeredStores.ReadAfterRun` | rust/src/fvm/blockstore/fake.rs:36-58 | after any history a read gives the last wrong-hash block put at the key, whole; else the last right-hash one cut at its 32-bit length; else the initial base |
| `LayeredStores.LayersDivide` | rust/src/fvm/blockstore/fake.rs:12-17 | every block in memory was put and has the wrong hash; every new block in the base is what a put with the right hash handed over, cut at its 32-bit length; no initial key disappears |
| `LayeredStores.BaseMatches` | rust/src/fvm/blockstore/fake.rs:12-17 | if the matching puts are shorter than 2^31 bytes, every new block in the base was put as it is and matches its CID |
| `LayeredStores.StoredWholeIff` | rust/src/fvm/blockstore/fake.rs:43-49 | after any history the last matching put of a CID that was taken is in the base, whole if and only if it is shorter than 2^31 bytes; without hash collisions it matches its CID under the same condition |
| `LayeredStores.CutBlockMismatch` | rust/src/fvm/blockstore/fake.rs:43-49 | under any hash function a matching block of 2^32 bytes is stored empty, and what is stored matches exactly if the empty block does, which without hash collisions it does not |
| `LayeredStores.ReadAfterLog` | rust/src/fvm/blockstore/overlay.rs:7-12 | after any log of writes to the base a read gives the overlay's block, else the last write of the key, else the base |
| `LayeredStores.ReadAfterPuts` | rust/src/fvm/blockstore/overlay.rs:32-41 | the same with the log given by the puts that made it, in batches or not, truncated ones included |
| `LayeredStores.ReadAfterFinish` | rust/src/fvm/blockstore/overlay.rs:7-12 | after any history, `finish` and any log of later writes, a wrong-hash block of the first phase is never hidden, and any other key reads as the last later write, else as at `finish` |
| `LayeredStores.LaterAfterFinish` | rust/src/fvm/blockstore/fake.rs:94-99 | what the overlay made by `finish` reads, in terms of the puts of both phases |
| `BigInts.PackValue` | rust/src/fvm/machine.rs:67-71 | shifting and or-ing two words is their value, below 2^128 |
| `BigInts.SplitIff` | fvm.go:165-181 | splitting fails exactly for negative numbers and from 2^128 on; otherwise Rust and Go both rebuild the number |
| `BigInts.ReformUnpack` | fvm.go:183-195 | what Rust's shifts send back is rebuilt in normal form with the same value, for every u128 |
| `Registries.Registry.Register` | cgo/registry.go:20-30 | the handle is the counter, which advances and wraps, and the externs are found under it |
| `Registries.Registry.Unregister` | cgo/registry.go:35-40 | only that handle disappears |
| `Registries.Registry.Lookup` | cgo/registry.go:43-49 | the registered externs, or nil, which is also what a nil registration gives |
| `Registries.FVM.CreateFVM` | fvm.go:48-91 | amounts outside 0 to 2^128 register nothing; the foreign constructor gets both amounts unchanged and the next handle; a failed machine leaves its handle registered; success returns a machine that holds the handle (amounts are normalised, as Go's always are) |
| `Registries.FVM.Finalizer` | fvm.go:78-88 | destroys the executor and unregisters once; a second run does nothing |
| `Lifecycle.RunKeeps` | cgo/registry.go:20-49 | in every interleaving that never reuses a handle in use, owners have distinct handles mapped to their externs, and the table holds no other handle |
| `Lifecycle.RunIff` | fvm.go:58-118 | which interleavings there are, in terms of how often each step happened: when a constructor returns, a call starts or ends, a callback comes, a finalizer starts, destroys and removes |
| `Lifecycle.MachinesByHistory` | cgo/registry.go:20-30 | one machine for each registration, with its externs and the wrapped counter as its handle |
| `Lifecycle.PhaseByCounts` | fvm.go:71-91 | creation has failed exactly if the constructor returned a failure, an FVM exists exactly if it returned a success, and it returns at most once |
| `Lifecycle.TableByHistory` | cgo/registry.go:20-40 | with fewer than 2^64 registrations the table holds exactly the registered externs whose handle was not removed |
| `Lifecycle.HandlesSafe` | fvm.go:58-88 | with fewer than 2^64 registrations every owner's handle is its own, below the counter and mapped to the externs it was created with |
| `Lifecycle.CallbacksFindExterns` | cgo/registry.go:43-49 | at every callback of any run the lookup finds the externs of its machine, so only a machine with nil externs sees an invalid handle |
| `Callbacks.CallbackRegistered` | cgo/blockstore.go:36-39 | at every callback of any run the store's handle is registered if and only if the machine's externs are not nil |
| `Callbacks.PerformAtCallback` | rust/src/fvm/blockstore/cgo.rs:31-153 | at every callback of any run no read or write of the store panics unless the machine's externs are nil, and then all do but a batch of no blocks |
| `Lifecycle.AtMostOnce` | fvm.go:78-88 | over every interleaving of any number of finalizer runs a machine is destroyed at most once and unregistered at most once, never without being destroyed |
| `Lifecycle.LaterFinalizers` | fvm.go:80-82 | a finalizer run changes nothing at all if and only if the machine's finalizer has run before |
| `Lifecycle.DestroyedBeforeRemoved` | fvm.go:84-87 | when a handle is removed its machine was destroyed before and the handle was still its own |
| `Lifecycle.AtRest` | fvm.go:71-73 | when nothing is running the table holds exactly the handles of failed creations |
| `Lifecycle.RegisterSafeIff` | cgo/registry.go:26-28 | a registration keeps all lookups right exactly when its handle is not in use by a machine with other externs |
| `Lifecycle.WrapTakesOver` | cgo/registry.go:26-28 | after 2^64 registrations the next one takes over the first machine's handle |
| `Bls.Flatten` | bls.go:25-35 | the buffer filled slot by slot is the concatenation of the items |
| `Bls.FlattenMessages` | bls.go:45-51 | the appended buffer is the concatenation and the sizes are the lengths |
| `Bls.SplitBy` | rust/src/bls/api.rs:167-173 | splitting panics exactly when the sizes exceed the buffer; otherwise the pieces have the given sizes and concatenate to what they cover |
| `Bls.SplitMessages` | rust/src/bls/api.rs:167-173 | the loop over the offset computes that split |
| `Bls.ChunksOfConcat` | rust/src/bls/api.rs:123-143 | chunking a concatenation of pieces, full but perhaps for the last, gives the pieces back |
| `Bls.ChunksCover` | rust/src/bls/api.rs:79-80 | for any buffer the chunks lose nothing and all but the last are full |
| `Bls.VerifyAcross` | rust/src/bls/api.rs:104-146 | on Go's buffers the gates pass exactly for as many digests as keys, every digest and every key must decode, and the library sees the original lists |
| `Bls.VerifyIff` | rust/src/bls/api.rs:104-146 | for all buffers verification succeeds exactly if they are made of whole digests and keys, as many of each, that all decode and that the library verifies |
| `Bls.HashVerifyAcross` | rust/src/bls/api.rs:158-188 | on Go's buffers, and with bytes after the messages, splitting never panics, every key must decode, and the library sees the original messages and keys |
| `Bls.HashVerifyRefuses` | rust/src/bls/api.rs:158-188 | for all buffers a panic exactly if the sizes exceed the messages of a signature that decodes, and no success for a cut key |
| `Bls.AggregateAcross` | rust/src/bls/api.rs:76-94 | for all buffers the library aggregates the pieces if every one of them decodes; on Go's buffer they are the original signatures |
| `Sectors.Dedup` | types.go:93-100 | distinct numbers, the same set of numbers, and only first entries |
| `Sectors.NewSortedPrivateSectorInfo` | types.go:92-108 | strictly ascending numbers, the same set of numbers, the first entry of each |
| `Sectors.SortedFirstUnique` | types.go:101-103 | that list is unique, so an unstable sort makes no difference |
| `Sectors.SplitsCover` | types.go:142-148 | consecutive splits concatenate to what they cover |
| `Sectors.LastWins` | rust/src/proofs/helpers.rs:31-45 | for each sector the map keeps the last replica, and it has no other keys |
| `Sectors.PrivateMapIff` | rust/src/proofs/helpers.rs:57-102 | fails exactly when some path is bad, with the first bad path of the first such replica, the cache directory before the replica path; otherwise keeps every replica |
| `Sectors.MapKeepsOrder` | rust/src/proofs/helpers.rs:78-101 | for a list in ascending order a walk through the map meets the same sectors, in the same order, each with its own data |
| `Aggregation.ReduceIsSequential` | rust/src/proofs/api.rs:283-289 | every split of the work gives the in-order concatenation, and fails exactly when some conversion fails, with that error |
| `Aggregation.ReduceIff` | rust/src/proofs/api.rs:283-289 | the results a split of the work can have are exactly the in-order concatenation, or the error of any input that fails; there always is one (`Aggregation.HasResult`) |
| `Aggregation.ReduceAligned` | rust/src/proofs/api.rs:283-294 | the rows of each input sit right after those of the inputs before it, and there are no others |
| `Ownership.AllocSliceBoxedUint8` | cgo/helpers.go:60-67 | a new box that holds the bytes |
| `Ownership.DestroyBox` | cgo/types.go:585-590 | frees a box unless it is null, and leaves null |
| `Ownership.DestroyInfo` | cgo/types.go:592-598 | frees both boxes of an entry, in order |
| `Ownership.NewPrivateReplicaInfo` | cgo/helpers.go:238-246 | two new boxes with the two paths |
| `Ownership.CleanInfos` | proofs.go:752-758 | frees everything the first `limit` entries own, once and in order, and nothing else; they own nothing afterwards |
| `Ownership.CleanBoxes` | proofs.go:958-964 | the same for plain boxes |
| `Ownership.CleanTwice` | proofs.go:752-758 | a second run frees nothing more |
| `Ownership.ToFilPrivateReplicaInfos` | proofs.go:760-786 | succeeds exactly when all entries convert; on failure at any index each box allocated so far has been freed exactly once, on success all are live and owned in order |
| `Ownership.ToVanillaProofs` | proofs.go:966-974 | one live box for each proof, with its bytes, owned in order |
| `Ownership.GeneratePoSt` | proofs.go:538-566 | nothing stays allocated on any path and every box was freed exactly once; it succeeds exactly when all sectors convert, all paths are good and the prover accepts the map of those sectors |
| `Ownership.SectorsReachProver` | rust/src/proofs/helpers.rs:57-102 | from the client's list through the constructor, the conversion and the map: built exactly when all paths are good, and an ascending walk meets the sorted numbers, each with the converted proof type and commitment, the cache directory and the sealed path of its first entry |
| `Ownership.AggregateSealProofs` | proofs.go:428-442 | the same when the aggregation type does not convert after the boxes were made; it succeeds exactly when the type converts and the library accepts the client's proofs as read from the boxes |
| `Ownership.OwnsDistinct` | proofs.go:752-786 | boxes owned by converted entries are distinct and live, and taking them away restores the earlier heap |

## Left out

- Sealing, PoSt, aggregation and sector-update calls: thin wrappers over libraries that are not part of this model.
- BLS curve operations, hashing, key generation and message execution: foreign libraries, here uninterpreted parameters. `prove` also stands for the conversion of the prover's id and of the proofs.
- `put` and `put_many` by hash code on the fake and overlay stores: they forward to a default of the blockstore library.
- Enum mappings between client and foreign proof types: finite tables; only whether they fail is modelled.
- File descriptors, paths, logging, panic-catching wrappers, response destructors and JSON of sector lists.
- `toFilPoStProofs` and `generate_single_vanilla_proof`: their ownership rules differ from the cleaner pattern.
- Raw pointers: a batch is a sequence with an offset, and a box is a number in a heap with its bytes; the length field of a destroyed box is not modelled.
- ToVanillaProofs: running its cleaner twice is not stated on its own; the contract of `CleanBoxes` gives it as for replica infos.
- Split: covers ranges within the list; Go would also accept an end beyond the length but within the slice's capacity.
- CallbacksFindExterns: a call on a machine is an interval between two steps; which Go goroutine runs it and the foreign lock around the executor are not modelled.
- PerformAtCallback: a batched write is several callbacks; the registry stays the same from the first to the last in this model.
- AggregateSealProofs: the conversions before the boxes are made are left out; they fail with nothing allocated.
- HashVerify: offsets are unbounded numbers; an overflow of the size sum could only turn one panic into another.
- ReduceIsSequential: the accumulator is a value; that it is extended in place is not visible to the caller.
