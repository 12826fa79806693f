# Verified models of the platform's core algorithms

A Dafny project that models the stateful algorithms at the heart of the platform and proves what they keep over whole
runs. To verify, run `dafny verify dfyconfig.toml`. Floating-point numbers are exact reals, each lock-held region is
one atomic step, and everything the outside decides (clocks, random draws, failing calls, answers of policies, hashes,
ciphers, the key service) is a parameter with, at most, its round-trip law.

Where the program changes something in place the model does too: a method or a class with the same fields, proved
against a specification function, and the lemmas about whole runs are about those functions.

- **State-vector simulator** (`Bits`, `ComplexNumbers`, `Gates`, `GateMeanings`, `Circuits`, `Sampling`, `Builders`,
  `Fourier`): the gate loops over an array of 2^n amplitudes, the gate-list interpreter with 64-bit masks, what each
  gate's name does, sampling and the circuit builders. Every circuit on its register's qubits keeps the norm and is
  undone by its inverse; the built Fourier circuit is the discrete Fourier transform in bit-reversed order.
- **Microtask manager** (`Microtask`, `MicrotaskTokens`, `MicrotaskEffects`, `MicrotaskAggregation`,
  `MicrotaskProgress`, `MicrotaskRuns`, `MicrotaskResults`, `MicrotaskDispatch`, `MicrotaskManager`): submitters, queue,
  dispatcher, worker channels, handlers, retries and aggregation as a protocol in which each microtask is a token.
- **Resource pool** (`Ledger`, `ReservationIds`, `Pools`, `PoolRuns`, `PoolManager`, `Bookings`, `Pareto`): per-node ledgers
  under any interleaving of Allocate's locked phases, frees, moves and queue drains, in the requests' own fields in
  `Bookings`; and Pareto-front selection. `stamps` chooses between Allocate as written, which stores a reservation
  without its node, and the intended version that records it.
- **Distributed storage** (`Merkle`, `Shards`, `XorParity`, `Chunks`, `Persist`, `PersistExits`, `Placements`): the Merkle
  loop, the XOR parity split, chunked upload and concurrent download, write-then-clean-up uploads with or without an
  orphan registry, and what comes back of a file that a placement plugin split.
- **Encrypted file store** (`Secstore`, `SecstoreKeys`): framing, reading, writing and rewrapping all files, which key
  each is kept under, and runs of puts and rotations.
- **Leader election** (`LeaderElection`): timed runs of any number of electors over one Redis key, with late replies,
  late renewals and EXPIREs without effect.
- **Token buckets** (`TokenBuckets`, `Admission`, `AdmissionRuns`): the QoS bandwidth bucket, the integer limiter, and
  runs of the QoS manager and of the gateway's per-service limit, with exactly what is admitted.
- **Reservation ledger** (`Reservations`): account quotas, reservations and the cached availability list.

## What the proofs found

Some promises do not hold of the code as written. In brackets: the lemma that says when, or gives the failing case.

- A root can be marked done, with some of its slices' results, while others are still to run: slices are handed out
  while later ones are being linked. That can happen with every number of slices from two on, and never with fewer
  [`OnlySingleSlices`].
- Download after a chunked upload works with one replica per chunk or no data. With more, the recorded root is over all
  replicas and the check on one shard per chunk fails, unless the first chunk is as long as two hashes and happens to
  be the right ones; by default there is one replica per backend [`DownloadAfterUpload`].
- A file uploaded through the XOR placement comes back with its parity at the end, and one uploaded through the
  replication placement comes back once per replica, both under a matching root [`ParityIsDownloaded`,
  `ReplicasAreJoined`: exactly when the file comes back].
- A download that lost shards succeeds exactly if the padded data of what is left is that of what was listed
  [`DegradedDownload`]; the file then comes back shorter, as with a lost last chunk that equals the one before it
  [`LostDuplicateUnnoticed`, `LostPairUnnoticed`]. A loss of content that no shard holds any more is always reported,
  unless the first chunk left is as long as two hashes [`LossNoticed`].
- Allocate books a request without recording the node, so freeing it gives nothing back; the leaked amounts are exactly
  those booked by Allocate [`BookKeepsExactIff`, `ExcessIsLeaked`].
- A soft request whose node vanished or filled up after the policy's answer is dropped, not queued, and exactly then
  [`FinishCloses`, `SoftRequestDropped`].
- A put that times out keeps running. If its retry succeeds and the upload fails later, the clean-up can delete the
  shard before the abandoned attempt stores it again, registered nowhere. The sign-failure exit forgets shards whose
  delete failed, and the cancellation exit cleans up nothing [`PutFailureLeaves`, `SaveFailureLeaves`,
  `SignFailureLeaves`, `CancellationLeaves`: exactly what is left]. Without a registry, and where a shard finds no
  backend, shards whose delete failed stay and are registered nowhere [`UnregisteredFailureLeaves`,
  `NoBackendLeaves`].
- The XOR split asks for a negative length for short files, such as five bytes in four parts [`PlaceShards`: exactly
  when].
- Ignored EXPIRE errors, late renewals and late replies allow two leaders exactly if together they can use up two thirds
  of the TTL [`SafeExactly`]. A releasing elector reports leadership until its script's reply is there, when another may
  lead already [`FlagOutlivesKey`]. A renewer cancelled by a release, if its tick comes before it notices, ends the
  leadership that its elector has acquired since, though that owns the key [`OwnerWithoutFlag`].
- The integer limiter admits less than one token more in a window than capacity and rate allow, and anything up to that
  [`IntWindowBound`, `IntWindowBoundIsTight`]. It keeps to the real-valued bound exactly if it holds nothing or earns
  nothing [`StaysWithinExactly`]. A call that it refuses drops the part of a token earned so far, which can change a
  later answer, exactly if it credits a token and the limiter holds any [`RefusalHarmlessExactly`].
- A bucket that was full meanwhile refuses calls that are within its capacity and within what was there plus what was
  earned less what was admitted [`FullBucketForgets`; `AdmittedExactly`: exactly what is admitted].
- Giving a policy another target leaves the old target's bucket behind, which goes on admitting, and removing one of two
  policies for a target takes the bucket of both away [`MatchedExactly`: exactly when buckets and policies stay matched].
- Picking on the Pareto front alone can miss the largest weighted sum, exactly if some scored dimension has a negative
  weight [`FrontSufficesExactly`].
- A put whose wrapped key, key metadata or ciphertext happens to hold `||`, or whose wrapped key ends in a bar, cannot
  be read back, and a rewrap with such a key loses the file [`PutThenGet`, `RewrapKeepsContents`: exactly when].
- An H on a negative qubit, or on one from 64 on, has a zero mask and wipes out the state: sampling then reports a zero
  probability vector, and in no other case [`PrefixNorm`, `RunCircuit`].
- A draw of exactly 0 samples outcome 0 even if that outcome has probability zero; no other draw samples an outcome that
  cannot occur [`SampleHasProbability`].

## Model

| member | source | states |
|---|---|---|
| `Bits.BitIsShift` | internal/quantum/qsa.go:792-793 | the bit recursion used throughout is the program's shift-and-mask test of a bit |
| `Bits.FlipIsMask` | internal/quantum/qsa.go:739-740 | inverting a clear bit is `i \| mask`, inverting a set one takes the mask away |
| `Circuits.ApplySingleQubitUnitary` | internal/quantum/qsa.go:734-747 | the in-place loop leaves exactly the matrix product on every index pair, each pair once; with a zero mask (a negative qubit, or one from 64 on) every amplitude is scaled by the sum of the lower row |
| `Circuits.ApplyCnotInPlace` | internal/quantum/qsa.go:749-767 | the in-place loop is the index map that flips the target bit where the control bit is set, and nothing where a mask is zero |
| `Circuits.ApplyControlledPhase` | internal/quantum/qsa.go:769-779 | exactly the amplitudes with both bits set are turned by the phase, a zero mask counting as set |
| `Circuits.ApplySwapInPlace` | internal/quantum/qsa.go:781-801 | the in-place loop is the index map that exchanges two bits, including equal qubits, and nothing where a mask is zero or the sign bit |
| `Circuits.InversionAboutMean` | internal/quantum/qsa.go:803-814 | every amplitude is reflected about the mean of the state before the call |
| `Circuits.RunStatevector` | internal/quantum/qsa.go:631-730 | the gate interpreter for any integers as qubits: size errors, arity errors, cancellation, out-of-range index, or the state after all gates |
| `Circuits.UnsafeIndexIsReached` | internal/quantum/qsa.go:734-801 | a gate outside the safe-index condition really makes some iteration of its loop leave the state |
| `Circuits.InRangeNeverPanics` | internal/quantum/qsa.go:643-729 | gates on qubits of the register never index outside the state |
| `Gates.InverseDecodes` | internal/quantum/qsa.go:649-727 | the inverse gate (negated angle for RX, RZ, CPHASE; itself otherwise) decodes to the inverse operation |
| `Gates.GateUndone` | internal/quantum/qsa.go:649-727 | every gate that does not erase is undone by its inverse on every state |
| `Gates.UndoneExactly` | internal/quantum/qsa.go:649-747 | a gate can be undone on all states if and only if it is not an H on a qubit without a mask |
| `Circuits.CircuitUndone` | internal/quantum/qsa.go:631-730 | every circuit without such gates followed by the inverses in reverse order is the identity on every state |
| `Circuits.RunUndone` | internal/quantum/qsa.go:631-730 | running such a combined circuit ends in the start state |0...0> exactly |
| `Gates.PairNorm` | internal/quantum/qsa.go:734-747 | a unitary pair loop keeps the total probability of the whole state |
| `Gates.DiffuseNorm` | internal/quantum/qsa.go:803-814 | inversion about the mean keeps the total probability, though no single pair keeps its own |
| `Gates.GateNorm` | internal/quantum/qsa.go:649-727 | every gate keeps the total probability of every state, except that an H on a qubit without a mask leaves none |
| `Circuits.PrefixNorm` | internal/quantum/qsa.go:643-730 | after every prefix of every circuit that is still running the total probability is 1, or 0 exactly if the prefix held such an H |
| `Gates.SwapIsThreeCnots` | internal/quantum/qsa.go:749-801 | SWAP(a,b) equals CNOT(a,b), CNOT(b,a), CNOT(a,b) on every state, for distinct qubits |
| `Circuits.RunCircuit` | internal/quantum/qsa.go:581-629 | sampling computes the measurement function of the run, and reports the zero-probability error if and only if a gate of the circuit erased the state |
| `Circuits.Search` | internal/quantum/qsa.go:616-625 | the binary search finds the first cumulative entry that reaches the draw, or the last entry |
| `Circuits.SampleHasProbability` | internal/quantum/qsa.go:585-625 | a draw in [0, 1) selects an outcome that can occur if and only if it is positive or outcome 0 can occur |
| `Circuits.TallyCountsEveryShot` | internal/quantum/qsa.go:611-628 | the counts over all outcomes add up to the number of shots, at indices of the state |
| `Builders.BuildGroverSkeleton` | internal/quantum/qsa.go:853-860 | the builder loop appends one H per qubit and a DIFFUSION |
| `Builders.GroverIsUniform` | internal/quantum/qsa.go:853-860 | the skeleton's run gives every basis state the amplitude (1/sqrt 2)^n |
| `Builders.BuildQft` | internal/quantum/qsa.go:837-851 | the nested builder loops append the H and CPHASE rows and then the SWAPs |
| `Builders.QftWellFormed` | internal/quantum/qsa.go:837-851 | no gate of the built circuit indexes outside the state, although some name qubit n |
| `Builders.TargetNCanBeDropped` | internal/quantum/qsa.go:769-779 | CPHASE gates onto qubit n can be left out of any circuit on n qubits |
| `Fourier.QftIsFourier` | internal/quantum/qsa.go:837-851 | on basis state x the built circuit gives y the amplitude h^n exp(2 pi i rev(x) rev(y) / 2^n), for registers of up to 63 qubits: the discrete Fourier transform up to bit order |
| `Fourier.KernelMeaning` | internal/quantum/qsa.go:837-851 | the kernel of that transform is the turn by rev(x) rev(y) / 2^n of a full circle |
| `GateMeanings.XMoves` | internal/quantum/qsa.go:649-665 | on every register and state, a gate whose name spells X in any mixture of cases moves the amplitude of every index to the index with that qubit's bit inverted |
| `GateMeanings.ZNegates` | internal/quantum/qsa.go:666-673 | Z negates exactly the amplitudes whose index has the bit set |
| `GateMeanings.HMixes` | internal/quantum/qsa.go:650-657 | H turns a pair a, b into their sum and difference over the square root of two |
| `GateMeanings.RxTurns` | internal/quantum/qsa.go:674-688 | RX turns a pair by cosine and sine of half the first parameter, or of zero without parameters |
| `GateMeanings.RzTurns` | internal/quantum/qsa.go:689-700 | RZ turns the phase by half the first parameter, forward where the bit is set and back where it is not |
| `GateMeanings.CnotInverts` | internal/quantum/qsa.go:701-705 | CNOT inverts the target bit exactly where the control bit is set |
| `GateMeanings.CphaseTurns` | internal/quantum/qsa.go:706-714 | CPHASE turns the phase by the first parameter exactly where both bits are set |
| `GateMeanings.SwapExchanges` | internal/quantum/qsa.go:715-719 | SWAP exchanges two bits of every index |
| `GateMeanings.DiffusionReflects` | internal/quantum/qsa.go:720-723 | DIFFUSION reflects every amplitude about the mean of all |
| `GateMeanings.OtherNamesDoNothing` | internal/quantum/qsa.go:724-727 | a name that spells none of the nine gates changes nothing, whatever its qubits and parameters |
| `GateMeanings.SingleWithoutMask` | internal/quantum/qsa.go:734-747 | on a negative qubit, or one from 64 on, H wipes out every amplitude, X leaves it, Z negates it, and RX and RZ turn it with itself |
| `GateMeanings.CnotElsewhere` | internal/quantum/qsa.go:749-767 | for all other integers as qubits CNOT leaves the state, or indexes outside it exactly where the register has the control and the word, but not the register, the target |
| `GateMeanings.CphaseAnywhere` | internal/quantum/qsa.go:769-779 | for any integers as qubits CPHASE turns the amplitudes for which both count as set: without a mask always, beyond the register never |
| `GateMeanings.SwapElsewhere` | internal/quantum/qsa.go:781-801 | for all other integers as qubits SWAP leaves the state, or indexes outside it exactly where one qubit is the register's and the other beyond it and below the sign bit |
| `GateMeanings.HxhIsZ` | internal/quantum/qsa.go:643-673 | on every qubit and state the circuit H, X, H runs to the same state as Z |
| `GateMeanings.ThreeCnotsSwap` | internal/quantum/qsa.go:701-719 | on every two qubits and state the circuit of three CNOTs in turn runs to the same state as SWAP |
| `Sampling.SelectsExactly` | internal/quantum/qsa.go:605-625 | a draw selects an outcome exactly if it lies above the probability of the outcomes before it and not above that with its own, the first taking what is below and the last what is above |
| `Sampling.CountedByDraw` | internal/quantum/qsa.go:615-628 | every outcome is counted once for each shot whose own draw selects it |
| `Sampling.SampledExactly` | internal/quantum/qsa.go:585-628 | a run's counts are those over the shots asked for, or over 1024 if none are |
| `MicrotaskRuns.HeldExactlyOnce` | internal/microtasking/microtask.go:499-541 | in every run each unfinished microtask is held by exactly one submitter, queue slot, dispatcher, channel slot or handler, and a finished one by none |
| `MicrotaskRuns.NeverRunsTwiceAtOnce` | internal/microtasking/microtask.go:499-541 | no microtask is on two handlers at once |
| `MicrotaskRuns.RunsAreBounded` | internal/microtasking/microtask.go:719-742 | a handler runs each microtask at most MaxRetries + 1 times, and exactly that often if it failed |
| `MicrotaskRuns.FinishedStays` | internal/microtasking/microtask.go:706-764 | done and failed are absorbing, whatever happens afterwards |
| `MicrotaskRuns.OnlySingleSlices` | internal/microtasking/microtask.go:616-798 | for every number n of slices: in every run a root with n slices is done only when all of them are, with the aggregate of their results in slice order, if and only if n is at most 1 |
| `MicrotaskRuns.RootDoneMeansSlicesDone` | internal/microtasking/microtask.go:743-798 | with any number of slices that holds for a root that got no slice after one of its slices had ended |
| `MicrotaskRuns.AggregationIsNeverLost` | internal/microtasking/microtask.go:743-798 | in every run, once all slices of a root are done, however they were linked, it has a result, or an aggregation is under way, or a handler is about to check for one |
| `MicrotaskRuns.OneSliceIsNeverLate` | internal/microtasking/microtask.go:627-650 | a root with at most one slice got none after one had ended |
| `MicrotaskRuns.RootDoneTooEarly` | internal/microtasking/microtask.go:627-650 | for every n from 2 on a run marks the root done, with the first slice's result alone, before the last of its n slices is started: slices are handed out while later ones are still being linked |
| `MicrotaskTokens.TokensStep` | internal/microtasking/microtask.go:859-927 | every action of submitters, dispatcher, workers, handlers and retries keeps the holding of every microtask |
| `MicrotaskAggregation.DoneChildrenKept` | internal/microtasking/microtask.go:766-798 | once all slices of a root are done, no later step changes that or their results |
| `MicrotaskManager.SlicingIsARun` | internal/microtasking/microtask.go:627-650 | a slicing call is a run of single linking actions, between which anything else may happen |
| `MicrotaskManager.MicroTaskManager.LinkSlice` | internal/microtasking/microtask.go:627-650 | one round of the slicing loop is the protocol's linking action |
| `MicrotaskManager.MicroTaskManager.SliceTask` | internal/microtasking/microtask.go:616-654 | slices the root into the given number of slices, at least one, in order, making its DAG on demand |
| `MicrotaskManager.MicroTaskManager.ReportResult` | internal/microtasking/microtask.go:706-744 | the locked part of a report is the protocol's report action: done, retry or permanent failure |
| `MicrotaskManager.MicroTaskManager.ChildrenDone` | internal/microtasking/microtask.go:746-755 | the loop tells whether all known children are done |
| `MicrotaskManager.MicroTaskManager.CheckAggregation` | internal/microtasking/microtask.go:746-763 | aggregation is started exactly if all children are done |
| `MicrotaskManager.MicroTaskManager.CollectResults` | internal/microtasking/microtask.go:766-785 | the results of the done children, in slice order |
| `MicrotaskManager.MicroTaskManager.AggregateResults` | internal/microtasking/microtask.go:766-785 | the reading half of the aggregation is the protocol's collect action |
| `MicrotaskManager.MicroTaskManager.FinishRoot` | internal/microtasking/microtask.go:786-798 | the writing half stores the aggregate as the root's result |
| `MicrotaskResults.ResultsCollect` | internal/microtasking/microtask.go:766-785 | what is collected, for any slices in any state, are the results at exactly the positions of the done ones, in increasing order |
| `MicrotaskResults.ResultIsFromReports` | internal/microtasking/microtask.go:706-798 | in every run a root's result, late slices or not, is the aggregate of what its slices that were done at one step of the run had been reported with, successfully and before, in slice order |
| `MicrotaskResults.QueuesStayWithin` | internal/microtasking/microtask.go:499-541 | in every run neither the queue nor a worker's channel holds more than its capacity |
| `MicrotaskResults.QueueIsInOrder` | internal/microtasking/microtask.go:859-867 | in every run the dispatcher takes from the queue what was put in, in that order, and the rest is still there |
| `MicrotaskDispatch.RunsAtMostFourTimes` | internal/microtasking/microtask.go:719-742 | in every run a microtask is run at most four times, and exactly four times if it failed for good |
| `MicrotaskDispatch.OnlyAfterThree` | internal/microtasking/microtask.go:868-924 | in every run the dispatcher forces a microtask on a worker, or gives it back, only after exactly three failed attempts, and with stealing gives it back only after finding every worker's channel full since it took it |
| `MicrotaskDispatch.NeverStuck` | internal/microtasking/microtask.go:859-927 | in every run, while a microtask is unfinished, a check is due or an aggregation is under way, some step of the manager other than slicing and joining or leaving workers can happen |
| `MicrotaskDispatch.OneCheckEach` | internal/microtasking/microtask.go:743-763 | in every run the checks made and those due are as many as the microtasks that are done or failed for good |
| `MicrotaskDispatch.OneResultEach` | internal/microtasking/microtask.go:743-798 | in every run the checks that found all slices done are as many as the aggregates written and the aggregations still under way |
| `PoolRuns.LedgersHold` | internal/aggregation/resource_pool.go:365-582 | in every run nothing is overdrawn and handed-out amounts cover the reservations placed on a node, exactly so when Allocate records the node |
| `PoolRuns.CapacityStays` | internal/aggregation/resource_pool.go:365-582 | in every run free plus handed-out amounts of a node stay constant |
| `PoolRuns.ClampsNeverAct` | internal/aggregation/resource_pool.go:544-560 | whoever frees or moves a reservation finds its amounts in the ledger, so no max-with-zero clamp acts |
| `PoolRuns.ExcessIsLeaked` | internal/aggregation/resource_pool.go:499-516 | with Allocate as written, what a node hands out beyond its reservations is exactly what Allocate booked there, and is never given back |
| `PoolRuns.RequestsConserved` | internal/aggregation/resource_pool.go:1261-1336 | the last request admitted under an id is in exactly one place until freed or refused, unchanged but for its node; drains lose and duplicate none |
| `PoolRuns.FinishCloses` | internal/aggregation/resource_pool.go:449-516 | in every run the last phase of an Allocate call ends its request for good if and only if the chosen node is gone or has no room, soft or not; otherwise the request is booked |
| `PoolRuns.SoftRequestDropped` | internal/aggregation/resource_pool.go:449-498 | a run in which a soft request is dropped that way while its policy was running |
| `ReservationIds.EnsureUniqueReservationID` | internal/aggregation/resource_pool.go:345-359 | a booked id gets the first numeric suffix that is free, counting from one |
| `ReservationIds.UniqueIdIsFree` | internal/aggregation/resource_pool.go:345-359 | the id that comes out is never booked, and is the one asked for exactly if that was free |
| `Pools.BookKeepsExactIff` | internal/aggregation/resource_pool.go:487-516 | Allocate's booking keeps an exact ledger exact if and only if the request already named the chosen node or asks for nothing |
| `Pools.AllocateLeaks` | internal/aggregation/resource_pool.go:365-548 | an ordinary request allocated on an idle node and freed again leaves the node without its capacity |
| `Pools.RebookingLeaks` | internal/aggregation/resource_pool.go:345-359 | booking under an id already booked adds exactly the earlier reservation's amounts to the excess |
| `Pools.PlaceLedger` | internal/aggregation/resource_pool.go:499-510 | booking moves exactly the request's amounts, on the chosen node only, and keeps its capacity |
| `Pools.FreeLedger` | internal/aggregation/resource_pool.go:521-548 | freeing gives back exactly the reservation's amounts at its node and changes no other ledger |
| `Pools.MoveLedger` | internal/aggregation/resource_pool.go:967-995 | moving a reservation gives back at its node and takes at the new one, keeping every capacity and excess |
| `PoolManager.ResourcePool.TakeFrom` | internal/aggregation/resource_pool.go:499-509 | the booking loop over a map of amounts in any order |
| `PoolManager.ResourcePool.GiveTo` | internal/aggregation/resource_pool.go:537-543 | the release loop over a map of amounts in any order |
| `PoolManager.ResourcePool.HasRoom` | internal/aggregation/resource_pool.go:487-498 | the capacity check, a missing type counting as nothing left |
| `PoolManager.ResourcePool.Admit` | internal/aggregation/resource_pool.go:345-446 | the first locked phase of Allocate: the request gets its unique id and is queued, refused or passed to the policy |
| `PoolManager.ResourcePool.Book` | internal/aggregation/resource_pool.go:462-516 | the last locked phase of Allocate, storing the request as it came |
| `PoolManager.ResourcePool.Free` | internal/aggregation/resource_pool.go:519-549 | an unknown id is an error without effect; otherwise the reservation is released |
| `PoolManager.ResourcePool.FreeMany` | internal/aggregation/resource_pool.go:552-582 | releases the known ids in order and skips the others |
| `PoolManager.ResourcePool.TryQueued` | internal/aggregation/resource_pool.go:1284-1327 | one queued request is booked with its node recorded, or kept |
| `PoolManager.ResourcePool.ProcessPendingOnce` | internal/aggregation/resource_pool.go:1261-1336 | takes the whole queue, tries every request once in order, with any answers of the policies, and puts exactly the unbooked ones back |
| `PoolManager.ResourcePool.Rebalance` | internal/aggregation/resource_pool.go:903-1007 | for every node overloaded at the start each due reservation is looked at and moves if any node can take it, and nothing else moves |
| `PoolManager.ResourcePool.EnforceDeadlines` | internal/aggregation/resource_pool.go:1161-1212 | each reservation with under 30 seconds left is looked at once and moves if any node can take it, and nothing else moves |
| `PoolManager.PassIsARun` | internal/aggregation/resource_pool.go:903-1007 | a whole rebalance or deadline pass is a run of single moves |
| `PoolManager.DrainIsARun` | internal/aggregation/resource_pool.go:1261-1336 | an uninterrupted drain is a run of the drain steps of the protocol |
| `PoolManager.Utilization` | internal/aggregation/resource_pool.go:907-919 | the share of a node's listed capacity that is handed out |
| `Bookings.NamesExactly` | internal/aggregation/resource_pool.go:1559-1597 | an affinity entry names a node by its id, or by a label and its value on both sides of the first equals sign |
| `Bookings.NamedExactly` | internal/aggregation/resource_pool.go:345-359 | a request goes in under the id it asks for, or the generated one, or under the first numeric suffix of it that is not booked, and is otherwise unchanged |
| `Bookings.AdmitExactly` | internal/aggregation/resource_pool.go:365-446 | in the request's own fields: the first phase goes on exactly if the policy is there and some online matching node lists every required type with at least the amount; otherwise a soft request is queued and any other refused |
| `Bookings.BookExactly` | internal/aggregation/resource_pool.go:462-516 | in the request's own fields: the last phase books exactly if the node is there with enough of everything, and then the requirements, or the one amount of the one type, or nothing, go from free to handed out at that node alone |
| `Bookings.FreeExactly` | internal/aggregation/resource_pool.go:518-550 | freeing gives back exactly these amounts to the node the reservation is stored under, a handed-out side that is smaller going to zero |
| `Bookings.FreeManyIsARun` | internal/aggregation/resource_pool.go:552-582 | freeing many is the run that releases one after the other |
| `Bookings.FreeManyExactly` | internal/aggregation/resource_pool.go:552-582 | and leaves exactly the reservations that are not named |
| `Bookings.DrainStepExactly` | internal/aggregation/resource_pool.go:1284-1327 | a queued request is booked exactly if its policy is there and answers with a node that has enough of everything |
| `Bookings.HandedOutIsAsked` | internal/aggregation/resource_pool.go:365-582 | in every run what a node hands out is the sum of what its reservations ask for in their own fields, plus what Allocate booked there without recording it, which is nothing if it records the node |
| `Bookings.VisitExactly` | internal/aggregation/resource_pool.go:903-1212 | a reservation that a pass looks at moves exactly if it is due (soft, of priority at most five, at the overloaded node; or under 30 seconds from its deadline) and some other online node has enough of everything and, when rebalancing, matches |
| `Bookings.OverloadedExactly` | internal/aggregation/resource_pool.go:905-925 | a node counts as overloaded exactly if at least four fifths of what it lists are handed out |
| `Pareto.BeatsExactly` | internal/aggregation/resource_pool.go:1602-1650 | for the default policy a node beats another exactly if it has at least as much of the three main types free and draws no more power, and not both the same |
| `Pareto.DominatesScan` | internal/aggregation/resource_pool.go:864-880 | the comparison loop decides dominance, a missing dimension counting as worse |
| `Pareto.ParetoFrontIndices` | internal/aggregation/resource_pool.go:841-862 | exactly the undominated indices in ascending order, and some index for a non-empty list |
| `Pareto.Above` | internal/aggregation/resource_pool.go:841-862 | above every candidate there is one on the front: itself or one that dominates it |
| `Pareto.FrontHasTheBest` | internal/aggregation/resource_pool.go:796-826 | with weights that are not negative in the scored dimensions, the best of the front has the largest weighted sum of all scored candidates |
| `Pareto.NegativeWeightMisses` | internal/aggregation/resource_pool.go:803-826 | for every weight vector negative in some scored dimension there are candidates whose largest weighted sum the front misses |
| `Pareto.FrontSufficesExactly` | internal/aggregation/resource_pool.go:796-826 | looking only at the front finds the largest weighted sum, whatever the candidates, if and only if no scored dimension has a negative weight |
| `Pareto.PickWeighted` | internal/aggregation/resource_pool.go:796-826 | the first of the largest weighted sums on the front |
| `Pareto.ExprPolicy` | internal/aggregation/resource_pool.go:701-827 | the choice is a scored candidate, undominated and, without negative weights, of the largest weighted sum over all |
| `Pareto.DefaultFairShare` | internal/aggregation/resource_pool.go:1602-1650 | the one-pass scan returns a candidate that no candidate dominates, or nothing if there is no candidate |
| `Merkle.ComputeMerkleRoot` | internal/storage/distributed.go:513-537 | the level-by-level loop computes the root of the recursive tree |
| `Merkle.NextLevel` | internal/storage/distributed.go:523-534 | one round pairs neighbours, an odd level's last node with itself |
| `Merkle.RootsEqual` | internal/storage/distributed.go:513-537 | absent hash collisions two lists have equal roots if and only if the padded data of the lower tree is what is hashed at that height below the root of the other; for equal heights, if and only if the padded data is the same |
| `Merkle.HigherTreeDiffers` | internal/storage/distributed.go:513-537 | lists with trees of different height have different roots, unless the first element of the lower tree has the size of two hashes |
| `Merkle.PaddedMembers` | internal/storage/distributed.go:523-528 | padding neither adds nor drops an element |
| `Merkle.EqualRootsEqualData` | internal/storage/distributed.go:513-537 | shard lists of equal length have equal roots if and only if they hold the same data, absent hash collisions among the strings hashed |
| `Merkle.RepeatedLastSameRoot` | internal/storage/distributed.go:523-528 | a list of odd length from three up has the root of that list with its last element repeated |
| `Chunks.ChunksFlatten` | internal/storage/distributed.go:640-661 | the chunks of any input, for any chunk size, join to the input |
| `Chunks.DistributedStorage.WriteChunks` | internal/storage/distributed.go:635-745 | the read-and-replicate loop writes every replica of every chunk in order and, with no more replicas than backends, no two of one chunk on the same backend |
| `Chunks.FirstPerIndex` | internal/storage/distributed.go:744-761 | the manifest keeps the first shard of every index |
| `Chunks.DistributedStorage.UploadStream` | internal/storage/distributed.go:624-820 | records one stored shard per chunk and a root over all replicas, keeps everything stored before, and fails only with data and no backend |
| `Chunks.DistributedStorage.Download` | internal/storage/distributed.go:1026-1166 | for any completion order of the fetches: the intact data in index order if it has the recorded root, else the mismatch error |
| `Chunks.DownloadAfterUpload` | internal/storage/distributed.go:624-820 | with one replica per chunk, download returns the uploaded bytes for every input and chunk size; with more, exactly if the chunks pass the check against all replicas, which they never do unless the first chunk has the size of two hashes |
| `Chunks.DegradedDownload` | internal/storage/distributed.go:1044-1165 | whatever was lost or altered, for any recorded root: the download succeeds if and only if what is left passes the exact root condition, and then gives what is left |
| `Chunks.LossNoticed` | internal/storage/distributed.go:1148-1165 | a download fails whenever some chunk's bytes are in no shard that is left |
| `Chunks.LostDuplicateUnnoticed` | internal/storage/distributed.go:1148-1165 | a lost last chunk that repeats the one before it, after an odd number of others, is not noticed and the file comes back shorter |
| `Chunks.LostPairUnnoticed` | internal/storage/distributed.go:1148-1165 | nor are two lost last chunks of eight that repeat the two before them |
| `Persist.DistributedStorage.PutShardWithRetry` | internal/storage/distributed.go:384-450 | up to three attempts, stopping at the first accepted one or at cancellation; abandoned attempts keep running |
| `Persist.DistributedStorage.CleanUp` | internal/storage/distributed.go:891-902 | the clean-up loop deletes every written shard and registers those whose delete failed, where that exit registers |
| `Persist.DistributedStorage.WriteShard` | internal/storage/distributed.go:859-913 | one step of the write loop with its exits |
| `Persist.DistributedStorage.RecordManifest` | internal/storage/distributed.go:914-1000 | signs, saves and publishes the manifest, or cleans up |
| `Persist.DistributedStorage.PersistShards` | internal/storage/distributed.go:823-1000 | the whole call, with all its exits, does what the specification function says |
| `Persist.PutFailureLeaves` | internal/storage/distributed.go:886-905 | after a failed put exactly those written shards are unaccounted for whose delete succeeded while an abandoned attempt was still running |
| `Persist.SaveFailureLeaves` | internal/storage/distributed.go:971-986 | after a failed save the same, over all shards |
| `Persist.SignFailureLeaves` | internal/storage/distributed.go:959-970 | after a failed signature also every shard whose delete failed: that exit ignores delete errors |
| `Persist.CancellationLeaves` | internal/storage/distributed.go:881-885 | after cancellation between shards exactly the shards written so far are left |
| `Persist.NothingLost` | internal/storage/distributed.go:886-986 | with a registry and no abandoned attempt, a failed put or save leaves every shard deleted or registered |
| `Persist.RetriedTimeoutIsLost` | internal/storage/distributed.go:422-437 | a timed-out first attempt, a successful retry and a later failure leave a shard that nothing accounts for |
| `Persist.OthersStay` | internal/storage/distributed.go:856-986 | no exit touches a shard stored before, so earlier manifests still resolve |
| `Persist.FailureRecordsNothing` | internal/storage/distributed.go:856-986 | a failing call changes no manifest |
| `Persist.SuccessRecordsWritten` | internal/storage/distributed.go:914-1000 | a successful call records exactly the shards it wrote, with keys, indices, checksums and root, each stored with its data, and the next version |
| `Chunks.ChunkSizes` | internal/storage/distributed.go:640-661 | every chunk but the last has the full chunk size, and the last at least one byte |
| `Chunks.ReplicasSpread` | internal/storage/distributed.go:672-682 | with no more replicas than backends the replicas of a chunk go to different ones |
| `PersistExits.ExitExactly` | internal/storage/distributed.go:856-1000 | the exit taken is decided by the first shard that is not written (no backend, cancelled, or no accepted attempt among three), and after all of them by the signing and the saving |
| `PersistExits.UnregisteredFailureLeaves` | internal/storage/distributed.go:886-907 | without a registry a failed put leaves exactly the written shards whose delete failed or that an abandoned attempt may still store, and the failing one if an attempt stored it all the same or may yet |
| `PersistExits.NoBackendLeaves` | internal/storage/distributed.go:869-877 | where a shard finds no backend, of those before it exactly the ones whose delete failed or that an abandoned attempt may still store stay, registered nowhere |
| `PersistExits.RegisteredAfterFailure` | internal/storage/distributed.go:889-906 | with a registry a failed put registers exactly the failing shard and the written ones whose delete failed |
| `XorParity.PlaceShards` | internal/storage/distributed.go:1421-1479 | parts of the rounded-up size, the last with the rest, that join to the file, and their XOR, in turn over the backends; or the negative-length panic exactly when the last part would start beyond the end |
| `XorParity.XorInto` | internal/storage/distributed.go:1446-1460 | the in-place XOR of a part into the parity buffer, grown if needed |
| `XorParity.LostPartRecovered` | internal/storage/distributed.go:1446-1478 | any one lost part is the XOR of the parity and the other parts, cut to its length |
| `XorParity.OverrunsMeans` | internal/storage/distributed.go:1434-1445 | the failing case is (n-1) times the rounded-up chunk size exceeding the length |
| `XorParity.LongFilesAreSafe` | internal/storage/distributed.go:1434-1445 | files of at least (n-1) squared bytes are never split badly |
| `Placements.ReplicateShards` | internal/storage/distributed.go:1388-1416 | one whole copy of the file per replica, each with an index of its own |
| `Placements.PersistedDownload` | internal/storage/distributed.go:823-1165 | shards persisted in index order are downloaded as their data joined |
| `Placements.ParityIsDownloaded` | internal/storage/distributed.go:574-582 | a file placed with XOR parity comes back, without an erasure coder, with the parity at its end under a matching root: it is the file if and only if the file is empty |
| `Placements.ReplicasAreJoined` | internal/storage/distributed.go:574-582 | a file placed as whole replicas comes back once per replica: it is the file if and only if there is one replica or no data |
| `Secstore.ParseFrame` | internal/secstore/store.go:55-65 | a framed file parses back exactly when the wrapped key holds no separator and does not end in a bar and the ciphertext holds no separator |
| `Secstore.ParsedIsClean` | internal/secstore/store.go:55-65 | a parsed ciphertext never holds a separator |
| `Secstore.FrameIsRead` | internal/secstore/store.go:55-191 | a written file opens with its key and its ciphertext up to a separator if its header and wrapped key can be split off again, and otherwise not at all |
| `Secstore.PutThenGet` | internal/secstore/store.go:82-191 | what was put is read back if and only if the framing is safe; otherwise nothing is read, never other data |
| `Secstore.SimpleEncryptedStore.Put` | internal/secstore/store.go:82-144 | writes the framed file, or changes nothing on an error |
| `Secstore.SimpleEncryptedStore.Zero` | internal/secstore/store.go:67-71 | overwrites the whole buffer |
| `Secstore.RewrapKeepsContents` | internal/secstore/rotation.go:36-73 | a readable file reads the same after its rewrap if and only if the header's algorithm, the new metadata and the new wrapped key can be split again; otherwise nothing is read |
| `Secstore.RewrapDropsTail` | internal/secstore/rotation.go:36-73 | whatever stood after a separator inside the ciphertext is dropped for good |
| `Secstore.SimpleEncryptedStore.RewrapAllFiles` | internal/secstore/rotation.go:17-75 | the walk rewraps file by file and stops at the first error |
| `Secstore.RotationKeepsReads` | internal/secstore/rotation.go:17-75 | after any part of a rotation, completed or aborted, a key that could be read reads the same if and only if its own rewrap, if there was one, was safe |
| `Secstore.RotationReaches` | internal/secstore/rotation.go:17-75 | a completed rotation leaves every walked file whose rewrap was safe under the key service and changes no other |
| `Secstore.LastPutIsRead` | internal/secstore/rotation.go:17-75 | over every run of puts, the setting of the key service and rotations stopped anywhere, a key whose file was always written safely reads back what it was last put with |
| `Secstore.SafePutsAreEnough` | internal/secstore/rotation.go:17-75 | with a key service whose wrapped keys can be split off, every rewrap in such a run is safe: only puts can be unsafe |
| `SecstoreKeys.PutUnderService` | internal/secstore/store.go:93-144 | with a key service set, a put succeeds exactly if the service wraps the file key; the file then names the service and, if safely framed, holds the key as the service wrapped it, whatever the master key |
| `SecstoreKeys.PutLocally` | internal/secstore/store.go:102-144 | without one it succeeds exactly with a master key, and the file names the local key, under which its key is sealed |
| `SecstoreKeys.ReadExactly` | internal/secstore/store.go:146-192 | a file is read exactly if it splits, its header decodes, the key that it names opens the file key, that has an AES length, and it opens the ciphertext |
| `SecstoreKeys.RewrapExactly` | internal/secstore/rotation.go:36-73 | a safe rewrap keeps version, algorithm, nonce size and ciphertext, names the key service, and holds the file's own key as the service wrapped it |
| `SecstoreKeys.WalkStopsAt` | internal/secstore/rotation.go:22-75 | a rotation that fails stops at one file: those before it were rewrapped and none after it is touched |
| `SecstoreKeys.OnceSet` | internal/secstore/rotation.go:17-75 | in every run in which the key service is set it stays set, beside the master key |
| `SecstoreKeys.RotatedStaysUnder` | internal/secstore/rotation.go:17-75 | once a rotation over all files has completed with the key service set, every file that is written safely is and stays under the service, whatever is put and rotated later |
| `LeaderElection.SafeExactly` | internal/scaling/predictive_scaling.go:525-589 | at most one elector leads in every run if and only if reply time, renewal delay and a third of the TTL per tolerated lost EXPIRE add up to less than two thirds of the TTL |
| `LeaderElection.AtMostOneLeader` | internal/scaling/predictive_scaling.go:525-589 | within that bound at most one elector leads in every run |
| `LeaderElection.LeaderOwnsKey` | internal/scaling/predictive_scaling.go:525-589 | within that bound a leader owns the key, and the key has not expired |
| `LeaderElection.TwoLeadersFrom` | internal/scaling/predictive_scaling.go:525-567 | otherwise two leaders can follow from every state with no live key, two idle electors and nothing under way |
| `LeaderElection.FlagOutlivesKey` | internal/scaling/predictive_scaling.go:570-587 | once a leader's release script has run, another elector can lead while the first still has its flag set |
| `LeaderElection.RedisLeaderElector.BeginAcquire` | internal/scaling/predictive_scaling.go:525-538 | SET NX takes effect only where no key is live |
| `LeaderElection.RedisLeaderElector.EndAcquire` | internal/scaling/predictive_scaling.go:539-543 | the reply sets the flag and starts a renewer |
| `LeaderElection.RedisLeaderElector.RenewTick` | internal/scaling/predictive_scaling.go:546-567 | a tick refreshes the key if it is still owned, whether EXPIRE takes effect or not, and otherwise, or if GET is not answered, steps down and ends |
| `LeaderElection.RedisLeaderElector.BeginRelease` | internal/scaling/predictive_scaling.go:570-585 | cancels the renewer and deletes the key only if owned; the flag still stands |
| `LeaderElection.RedisLeaderElector.EndRelease` | internal/scaling/predictive_scaling.go:586-587 | clears the flag |
| `LeaderElection.RenewsAtTicks` | internal/scaling/predictive_scaling.go:546-567 | a renewer acts only after its ticker fired and before it is cancelled; its next tick is a third of the TTL after the last, unless it was later than that |
| `LeaderElection.FlagHasRenewer` | internal/scaling/predictive_scaling.go:525-587 | in every run, whatever the timing, an elector whose flag is set and that is not inside Release has a renewer running that is not cancelled |
| `LeaderElection.RenewExactly` | internal/scaling/predictive_scaling.go:551-565 | at a tick the owner of the live key sets it to the full TTL and keeps its flag; any other elector leaves the key alone and steps down |
| `LeaderElection.OwnerWithoutFlag` | internal/scaling/predictive_scaling.go:546-587 | a renewer cancelled by a release can still end the leadership that its elector acquired since: from every led state a run in which the owner of the live key does not report leadership |
| `TokenBuckets.TokenBucket.Consume` | internal/qos/qos.go:64-79 | refill up to the capacity, then pay or refuse |
| `TokenBuckets.WindowBound` | internal/qos/qos.go:64-79 | whatever happened before, a window [s,t] admits at most capacity + rate (t - s), net of what calls for negative amounts give back |
| `TokenBuckets.WindowBoundIsReached` | internal/qos/qos.go:64-79 | that bound is reached |
| `TokenBuckets.TicksChangeNothing` | internal/qos/qos.go:240-255 | any number of refiller ticks anywhere changes no answer |
| `TokenBuckets.AdmittedExactly` | internal/qos/qos.go:64-79 | after any calls, the next one is admitted exactly if it would exceed the bound of no window that ends with it: from the start, with what was there, or from any call on, with a full bucket |
| `TokenBuckets.AdmittedIfNeverFull` | internal/qos/qos.go:64-79 | if the bucket was never full meanwhile, exactly if it asks for at most what was there plus what was earned less what was admitted |
| `TokenBuckets.FullBucketForgets` | internal/qos/qos.go:71-73 | if it was full, that account alone does not decide: for every capacity and rate a call within it and within the capacity is refused |
| `TokenBuckets.RefusalChangesNothing` | internal/qos/qos.go:64-79 | a refused call changes no other answer of any run |
| `TokenBuckets.IntTokenBucket.Allow` | internal/services/policy.go:129-150 | whole tokens are added, the refill time moves only with them |
| `TokenBuckets.IntWindowBound` | internal/services/policy.go:129-150 | a window [s,t] admits less than capacity + rate (t - s) + 1 |
| `TokenBuckets.IntWindowBoundIsTight` | internal/services/policy.go:129-150 | that is the least such bound: for every bucket that holds and earns something, and every part of a token, a run has a window that falls short of it by no more than that part |
| `TokenBuckets.StaysWithinExactly` | internal/services/policy.go:129-150 | the limiter admits at most capacity + rate (t - s) in every window of every run if and only if it holds nothing or earns nothing |
| `TokenBuckets.IntAdmittedExactly` | internal/services/policy.go:129-150 | after any calls, the limiter admits the next one exactly if it would exceed the bound of no window that ends with it, in whole tokens credited |
| `TokenBuckets.CreditedIsEarned` | internal/services/policy.go:129-150 | credited is never more than earned, and less than one token short of it for each call |
| `TokenBuckets.RefusalHarmlessExactly` | internal/services/policy.go:129-150 | a refused call of the limiter changes no later answer if and only if it credits no token or the limiter holds none |
| `Admission.TicksChangeNoDecision` | internal/qos/qos.go:128-255 | over any run of policies set and removed and checks of any targets, refiller ticks change no decision |
| `Admission.TargetIsBucket` | internal/qos/qos.go:165-192 | whatever is checked for other targets, a target is served by its own bucket alone |
| `Admission.TargetWindowBound` | internal/qos/qos.go:128-192 | from the moment a policy is set until its target gets or loses a bucket again, every window admits at most the bandwidth once plus the bandwidth for each second |
| `Admission.QoSManager.SetPolicy` | internal/qos/qos.go:128-153 | a policy with id and target gives its target a full bucket of at least one |
| `Admission.QoSManager.RemovePolicy` | internal/qos/qos.go:156-163 | removing a policy takes the bucket of its target away |
| `Admission.QoSManager.CheckAdmission` | internal/qos/qos.go:165-192 | only what the bucket pays for is admitted and counted; a soft policy lets the rest through as throttled |
| `Admission.QoSManager.RefillAll` | internal/qos/qos.go:242-252 | one tick refills every bucket and nothing else |
| `Admission.InMemoryPolicyEngine.SetRate` | connectors/connector.go:420-426 | a new rate gives the service a full bucket |
| `Admission.InMemoryPolicyEngine.Allow` | connectors/connector.go:434-470 | location block, no limit, or one token from the service's bucket |
| `Admission.ServiceIsBucket` | connectors/connector.go:434-470 | whatever other services do, each is served by its own bucket |
| `Admission.ServiceWindowBound` | connectors/connector.go:434-470 | in a window without a change of its rate a service lets through at most its limit plus what is earned |
| `Admission.RateWindowBound` | connectors/connector.go:420-470 | from the moment a rate is set, every later window lets through at most the rate once plus what is earned, whatever other services do |
| `AdmissionRuns.MatchedExactly` | internal/qos/qos.go:128-163 | an event keeps it so that exactly the targets of policies have buckets if and only if it does not turn a policy away from a target that no other policy has, nor remove one of two for a target |
| `AdmissionRuns.MatchedRun` | internal/qos/qos.go:128-192 | so it is in every run of such events |
| `AdmissionRuns.CheckExactly` | internal/qos/qos.go:128-192 | from the moment a policy is set until its target gets or loses a bucket again, a check is admitted, and counted as used, exactly if no window that ends with it would exceed its bound; otherwise it is throttled where soft and refused where not |
| `AdmissionRuns.UsageIsAdmitted` | internal/qos/qos.go:165-192 | in every run the usage of a target is the sum of what was admitted for it |
| `AdmissionRuns.RefusedCheckChangesNothing` | internal/qos/qos.go:165-192 | over any run a check that was refused or throttled changes no other decision |
| `AdmissionRuns.RequestExactly` | connectors/connector.go:420-470 | from the moment a rate is set, a request from a place that is not blocked passes exactly if no window that ends with it would exceed the rate once plus a sixtieth of it for each second |
| `AdmissionRuns.RefusedRequestChangesNothing` | connectors/connector.go:434-470 | over any run a refused request changes no other reply |
| `Reservations.NeverOverbooked` | internal/services/srm.go:219-255 | in every run 0 <= reserved <= quota for every account |
| `Reservations.CacheIsFresh` | internal/services/srm.go:79-129 | in every run reading through the cache gives exactly a fresh fetch |
| `Reservations.FitCanBeReserved` | internal/services/srm.go:144-179 | any listed account that fits can be reserved at once, lowering its availability by exactly the amounts and no other's |
| `Reservations.ReleaseUndoesReserve` | internal/services/srm.go:219-255 | releasing what was just reserved restores ledger and list |
| `Reservations.ReservedIsConserved` | internal/services/srm.go:219-255 | in every run an account's ledger holds what was reserved within the quota less what was returned, of each amount at most what was there |
| `Reservations.FitsExactly` | internal/services/srm.go:144-179 | which accounts are listed for a request, in the fields of both: enough of each amount, the region and the kind if asked for, the cost where the account has one, and the uptime |
| `Reservations.ResourceManager.GetResources` | internal/services/srm.go:111-129 | the live cached list, or a fresh one that is then cached |
| `Reservations.ResourceManager.MatchResourcesAdvanced` | internal/services/srm.go:144-179 | exactly the listed accounts that fit, each once, best score first and in list order where scores are equal |
| `Reservations.ResourceManager.ReserveResource` | internal/services/srm.go:219-240 | checks the three quotas in order, books, and drops the cache |
| `Reservations.ResourceManager.ReleaseResource` | internal/services/srm.go:241-255 | gives back with a floor of zero, forgets empty entries, and drops the cache |

## Left out

- Rounding, overflow and NaN: reals are exact and integers unbounded, except that qubit counts follow the program's limits.
- Fourier.QftIsFourier: the words are 64 bits wide, so the circuits are those on up to 63 qubits; the backend runs up to 24.
- `cos`, `sin`, `pi` and the square root of one half: parameters with the laws c^2 + s^2 = 1, parity, angle addition where the Fourier circuit needs it, and 2 h^2 = 1.
- QAOA and VQE skeletons, the surrogate model, the HTTP bridge and the choice of backend: they build further gate lists, fit predictors and forward requests; no proof here depends on them.
- Stopping the microtask manager, loading saved state, creating a DAG on an existing root, and a send on a channel closed at that moment.
- Microtask identifiers are numbers; the load rule that picks a worker is any registered worker, so every rule is covered.
- MicrotaskManager.MicroTaskManager.SliceTask: slice ids are new and differ; the fields `runs`, `ended` and `late` are history that the program does not keep.
- Results reported by callers other than the handlers, and microtasks submitted from outside.
- Removing nodes, changing their resources, adding a node under an existing id, and energy figures in the pool.
- PoolRuns.LedgersHold: amounts are not negative, a request's id, once made unique among the booked ones, differs from those queued and in flight, and with Allocate as written requests name no node in advance and no node has a blank id.
- PoolManager.ResourcePool.Rebalance: no forecast hook is set, as for Book; the order in which overloaded nodes are visited is any order, not only that of falling utilisation.
- PoolManager.ResourcePool.Book: no forecast hook is set. With one, the forecast check of a request that needs anything takes the pool's lock for reading while the same call holds it for writing (resource_pool.go:475-477, 1495-1498), so the call never returns.
- PoolRuns.FinishCloses: likewise for a pool without a forecast hook.
- PoolManager.ResourcePool.ProcessPendingOnce: one call with nothing in between; PoolRuns.RequestsConserved covers drains interleaved with everything else.
- Policies other than the two modelled, and the expression language: an expression is any partial function of node and request.
- Chunks.DistributedStorage.UploadStream: encryptors, erasure coders, repair and partial failures of the chunked upload are not part of this model.
- Chunks.DistributedStorage.WriteChunks: every put succeeds and nothing cancels; what failing and cancelled puts leave behind is proved for the other upload path in Persist.
- Chunks.DistributedStorage.Download: no repair plugin, erasure coder or policy checker is set.
- Chunks.LossNoticed: says nothing where the first chunk left has exactly 64 bytes; Chunks.DegradedDownload covers that case.
- Merkle.EqualRootsEqualData: the hash is assumed free of collisions only among the strings hashed for the two lists, with hashes of 32 bytes.
- Persist.DistributedStorage.PersistShards: shards are already encrypted, shard ids are new, and explicitly named backends are registered.
- Deadlocks between locks, and goroutine scheduling inside a locked region.
- Secstore.PutThenGet: a header's JSON form is assumed to be safe to split off exactly if its algorithm, metadata and key id hold no `||`; that unsafe files are not read assumes that a ciphertext, a wrapped key or a JSON object that was cut short is refused.
- Secstore.LastPutIsRead: one master key and one key service, set once; files are not changed by others.
- LeaderElection.SafeExactly: a renewer's GET and EXPIRE are one step, as is the release script; clocks of electors and Redis agree on durations; an elector that is inside Release does not count as leading.
- Admission.QoSManager.CheckAdmission: priority queues and usage snapshots are not part of this model.
- Quotas that change, the parsing of quota and request maps, and the scoring formula, which is a parameter.
- Billing, ring buffers, round-robin scheduling, data residency, connectors, the web and mobile clients, scripts and deployment files.
