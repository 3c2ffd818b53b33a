# A verified model of the Concordium Rust smart contract libraries

This project models the parts of the Concordium Rust smart contract libraries that hold and move
state, and proves what they are for:

- **Ordered containers** (`concordium-std/src/state_btree.rs`). `StateBTreeSet` is a B-tree with
  minimum degree `M` whose nodes are separate entries of a key-value store, reached by id and
  edited through handles that are written back when dropped. `BTreeForest`, `BTreeSteps` and
  `BTreeOrder` are the theory of such a forest of nodes: a map from ids to nodes in which every
  node carries its interval, and in which splits, merges, rotations, root growth and root
  shrinking keep the shape and the set of keys. `StateBTree` has the operations themselves;
  `StateBTreeIteration` the iterator; `StateBTreeMaps` the map made of a key order and a store of
  values.
- **The testing chain** (`contract-testing/src/invocation/impls.rs`, `contract-testing/src/impls.rs`).
  `InvocationMachine` is the loop of `invoke_entrypoint` over its work stack, its stack of change
  sets and its trace, with the Wasm interpreter as an oracle that answers anything.
  `InvocationProofs` proves what each iteration keeps and what each run ends with;
  `InvocationEffects` says what an iteration does without the functions that do it, namely who paid
  whom, which state and module were saved, what it cost and what the contract was told, and
  `InvocationSteps` proves it of every iteration; `InvocationStates` proves that a resumed contract
  has its actual state, and `InvocationLimits` which numbers keep it from panicking. `ChainUpdate`
  is `contract_update` around it, down to the balances of the chain.
- **State containers** (`concordium-std/src/impls.rs`). `Codecs`, `ContractState`,
  `StateContainers` and `StateBuilding` take one flat store of byte strings, its entries with
  cursors, lazy handles and prefixes handed out by a counter, and prove that maps, sets and tree
  nodes over it act as independent mathematical maps and sets; `Containers` has whole programs over
  any number of them, and `TreeInBytes` and `MapInBytes` bring the ordered containers down to the
  bytes.
- **The bump allocator** (`concordium-std/src/bump_alloc.rs`), in `BumpAllocation`, over bitwise
  arithmetic in `Bits`.
- **Codecs**: LEB128 token amounts (`concordium-cis2/src/lib.rs`) in `TokenAmounts`, and account
  signatures (`contract-testing/src/types.rs`) in `AccountSignatures`.
- **Token ledgers** (`examples/cis2-dynamic-nft/src/lib.rs`, `examples/cis2-nft/src/lib.rs`) in
  `DynamicNft`, `DynamicNftProofs` and `Cis2Nft`, with receive hooks that call back into the
  contract as trees of calls (`Cis2Calls`); `DynamicNftCalls` and `NftCalls` say what the calls come
  to.

`dafny verify dfyconfig.toml` checks the whole project.

## How the model relates to the code

- Keys of the B-tree are integers. The code only compares keys, and any finite set of ordered keys
  maps into the integers in order. Node ids and `len` are unbounded; the code has 64 and 32 bits.
- A handle (`StateRefMut`) of the B-tree is an id and a cached node. While handles are live, the
  nodes they hold lie over the stored ones (`Overlay`), and the proofs show that handles live at
  the same time have different ids, so that no write-back undoes another. The Rust functions drop
  handles at the end of their scope; here `Drop` is a call. Where one Rust loop keeps several
  cases, its cases are methods of their own; the descents of the ordered queries take the stored
  nodes as a value. A tree keeps a log of what it does to its nodes (`NodeLog`), which is ghost;
  `StateContainers.NodeEntries` does each entry of such a log to the bytes, through handles, and
  `TreeInBytes` composes the two; `MapInBytes` does the same for an ordered map and its two
  prefixes, in whatever order its operations on values and on nodes come. That the nodes in the log
  can be written, ids and keys included, is assumed. A load is a lookup of a node by its id.
- A value is written over an entry without truncating it. `Codec.fits` holds of the values that
  can be written at all; for them a codec must read back what it wrote and stop behind it
  (`Lawful`), which is proved for node ids, vectors and nodes and assumed of value types and of
  the keys of a tree. The keys of a map and the elements of a set are never read back, and need
  only have different encodings (`Injective`).
- The interpreter is a sequence of answers, one for each iteration of the loop; a run whose
  answers are used up is `Unfinished`. Costs that come from outside (module lookup, transfers,
  storing the state, the transaction header) are inputs, and so is whether signatures are those of
  an account. Account addresses are canonical, and all CCD on the chain fits 64 bits. The addition
  of amounts is that of a library outside the repository. Sums of amounts, energy times 1000 and
  modification indices are taken to panic where they exceed 64, 64 and 32 bits, as in a build with
  overflow checks.
- The history of a run (`History`) records which frame called which, which failed, how many calls
  succeeded and what each caller met on return. It does not influence the run.
- The `expect` and index panics of the invocation loop, and the numbers that exceed their widths,
  are an outcome `Panicked`. `InvocationProofs.StepPanics` has all its causes: an amount that
  overflows a running delta, energy that overflows when the interpreter is to count it, no index
  left for a state to save, and data with signatures that is shorter than it says. The traps of
  `StateBTreeMap` and of child preparation are `assert false`.
- The memory of a contract is at most 2 GiB, so that `align_up` never wraps.
- Shifts in `TokenAmountU8` to `TokenAmountU128` take the shift amount modulo the width and drop
  high bits, as in a release build.
- A clause of the form `true == P` states `P`; the form makes the verifier prove `P` as one fact
  and not conjunct by conjunct.
- A call of a token contract that fails is undone by the chain. What a receive hook does is a list
  of calls, each with a sender and hooks of its own, and whether it succeeds in the end.

## Where the code does less than it could

- A failed call restores the stack of change sets of its caller exactly when no call inside it had
  succeeded: a failure pops one change set, while a success pops none and leaves its checkpoint.
  `ReturnOk` says so for every return of every run, and `InvocationExample.FailedCallNotUndone` is
  a run in which the state change of a rejected call survives and its caller goes on with an
  outdated state, told that nothing has changed. `InvocationStates.ResumesWithActualState` shows
  that this is the only way: without a success inside a failed call, every frame always has the
  state of the change set.
- The amount of a call is moved before its entrypoint is looked up, so it has moved when the
  entrypoint turns out to be missing. `InvocationEffects.Starts` has the exact condition, and
  `InvocationSteps.NotStartedUndone` says that the change set it moved in is gone when the caller
  resumes.
- `check_exchange_rates` says that it rules out overflow, and names a largest price of one energy;
  that price is the largest amount divided by 10^11, which implies a limit of 10^11 on the energy.
  It compares the whole part of the price only. `Amounts.SteepOverflows` has rates that pass and
  overflow; `Amounts.CheckIsExact` has the exact energy up to which the check does what it says.
- `contract_update` returns a fee with every error, but does not always take it from the invoker.
  `ChainUpdate.Charged` is the exact condition: a fee is taken, from a success or an error, if and
  only if the checks before the invocation passed (`Refusal`) and it is not the case that the
  invocation succeeded with less energy left than storing the state takes (`StoringFails`).
  `ChainUpdate.StoringNotCharged` and `ChainUpdate.InsufficientNotCharged` are inputs of both
  kinds for which the reported fee is positive and the chain stays as it was.
- A map of 256 account signatures is written with length zero; `AccountSignatures.RoundTrip` says
  exactly which values are read back, `AccountSignatures.FullMapIsLost` what becomes of such a map,
  and `AccountSignatures.FullMapExists` has one.
- Numbers that the caller or a contract chooses make the testing chain panic instead of being
  refused. `ChainUpdate.PanicsExactly` says exactly when an update does: the price of the reserved
  energy exceeds 64 bits; or it can be paid and exceeds them together with the amount; or that can
  be paid and the invocation panics, which by `InvocationProofs.RunOk` it does exactly if one of its
  iterations does. `ChainUpdate.PricePanics`, `ChainUpdate.AmountPanics` and
  `ChainUpdate.EnergyPanics` are updates of valid chains that panic for the price, for the
  amount and for the energy; `InvocationExample.LargestAmountPanics`,
  `InvocationExample.ShortDataPanics` and `InvocationExample.IndicesRunOut` are invocations that
  panic for an amount that a contract does not have, for data that is shorter than it says, and
  after 2^32 - 2 saved states. `ChainUpdate.NoPanic` has conditions that a caller can meet.
- A contract that asks for the module of a contract is told that the contract does not exist if
  its state or its balance changed before and it was not upgraded; and an account whose balance
  changed is reported without what is staked or locked. `ChangeSets.ModuleReported` and
  `ChangeSets.TotalReported` have the exact conditions, `ChangeSets.SavedStateHidesModule` and
  `ChangeSets.StakeNotReported` inputs.

## Model

| member | source | states |
|---|---|---|
| `StateBTree.StateBTreeSet.Insert` | concordium-std/src/state_btree.rs:411-450 | Every B-tree invariant is kept, the stored keys become the old ones and the new one, `len` is their number, and the result is true exactly for a key that was not there; it loads at most one node a level, and there are logarithmically many levels in the old `len` |
| `StateBTree.StateBTreeSet.Remove` | concordium-std/src/state_btree.rs:683-761 | For a key present or absent: every invariant is kept through rotations, merges and root shrinking, the stored keys become the old ones without the key, `len` is their number, and the result says whether the key was there; a tree of `h` levels has at most `3h - 1` loads, and `h` is logarithmic in the old `len` |
| `StateBTree.StateBTreeSet.Clear` | concordium-std/src/state_btree.rs:491-501 | No node is left in the store and the set is empty |
| `StateBTree.StateBTreeSet.InsertNonFull` | concordium-std/src/state_btree.rs:960-994 | From a node that is not full and may hold the key, the descent adds exactly the key, whatever handles above are still pending, splits full children on the way, and loads at most one node for each level below |
| `StateBTree.StateBTreeSet.SplitChild` | concordium-std/src/state_btree.rs:1004-1025 | A full child becomes two nodes of the minimum size and a key of the parent, with all three handles pending and the tree and its keys kept |
| `StateBTree.StateBTreeSet.AfterSplit` | concordium-std/src/state_btree.rs:982-992 | After a split the descent goes on in the half that may hold the key, and stops if the key that moved up is the key itself |
| `StateBTree.StateBTreeSet.PrepareChildForKeyRemoval` | concordium-std/src/state_btree.rs:806-872 | The child to descend into ends up with a key to spare and an interval that still covers the searched one, without touching nodes above; the trap at the end is unreachable |
| `StateBTree.StateBTreeSet.TakeFromSmaller` | concordium-std/src/state_btree.rs:821-835 | A key is rotated from the smaller sibling through the parent, and the tree and its keys are kept |
| `StateBTree.StateBTreeSet.TakeFromLarger` | concordium-std/src/state_btree.rs:840-855 | A key is rotated from the larger sibling through the parent, and the tree and its keys are kept |
| `StateBTree.StateBTreeSet.Merge` | concordium-std/src/state_btree.rs:911-925 | Two minimal siblings and their separator become one full node, the entry of the larger sibling is gone, and the tree and its keys are kept |
| `StateBTree.StateBTreeSet.RemoveLargestKey` | concordium-std/src/state_btree.rs:768-783 | Takes exactly the largest key below a node out of the tree and returns it, with at most three loads for each level below |
| `StateBTree.StateBTreeSet.RemoveSmallestKey` | concordium-std/src/state_btree.rs:787-802 | Takes exactly the smallest key below a node out of the tree and returns it, with at most three loads for each level below |
| `StateBTree.StateBTreeSet.Drop` | concordium-std/src/impls.rs:1170-1172 | Dropping a pending handle moves its node from the overlay to the store and leaves the tree as it was |
| `StateBTree.StateBTreeSet.StoredIffReached` | concordium-std/src/state_btree.rs:1151-1174 | The ids in the store are exactly those reached from the root, each by one path, and all below the next id |
| `StateBTree.StateBTreeSet.Contains` | concordium-std/src/state_btree.rs:453-470 | True exactly for the keys of the set, after a number of node loads that is logarithmic in `len` |
| `StateBTree.StateBTreeSet.Higher` | concordium-std/src/state_btree.rs:505-539 | The least key above the given one, or none if there is none, in logarithmically many loads |
| `StateBTree.StateBTreeSet.EqOrHigher` | concordium-std/src/state_btree.rs:543-577 | The least key not below the given one, or none, in logarithmically many loads |
| `StateBTree.StateBTreeSet.Lower` | concordium-std/src/state_btree.rs:581-610 | The greatest key below the given one, or none, in logarithmically many loads |
| `StateBTree.StateBTreeSet.EqOrLower` | concordium-std/src/state_btree.rs:614-647 | The greatest key not above the given one, or none, in logarithmically many loads |
| `StateBTree.StateBTreeSet.HigherFrom` | concordium-std/src/state_btree.rs:512-539 | One path from the root, with the best key so far, ends at the least larger key of the whole tree, with at most one load a level |
| `StateBTree.StateBTreeSet.LowerFrom` | concordium-std/src/state_btree.rs:588-610 | One path from the root, with the best key so far, ends at the greatest smaller key of the whole tree, with at most one load a level |
| `StateBTree.StateBTreeSet.First` | concordium-std/src/state_btree.rs:651-663 | The least key of the set, none exactly for the empty set, with at most one load a level, in logarithmically many levels |
| `StateBTree.StateBTreeSet.Last` | concordium-std/src/state_btree.rs:667-679 | The greatest key of the set, none exactly for the empty set, with at most one load a level, in logarithmically many levels |
| `StateBTree.StateBTreeSet.LevelsBound` | concordium-std/src/state_btree.rs:307-315 | A set with `h` levels, `h` positive, has at least `2 * M^(h-1) - 1` keys, so that every number of loads that is linear in the levels is logarithmic in `len` |
| `BTreeSteps.SplitStep` | concordium-std/src/state_btree.rs:1004-1025 | Splitting a full child keeps order, sizes, heights and the set of keys |
| `BTreeSteps.MergeStep` | concordium-std/src/state_btree.rs:911-925 | Merging two minimal siblings keeps order, sizes, heights and the set of keys |
| `BTreeSteps.RotateRightStep` | concordium-std/src/state_btree.rs:828-833 | Moving the last key of the smaller sibling up and the separator down keeps order, sizes, heights and the set of keys |
| `BTreeSteps.RotateLeftStep` | concordium-std/src/state_btree.rs:847-853 | Moving the first key of the larger sibling up and the separator down keeps order, sizes, heights and the set of keys |
| `BTreeSteps.LeafInsert` | concordium-std/src/state_btree.rs:970-975 | A key put between its neighbours in a leaf is the only key that is new |
| `BTreeSteps.LeafRemove` | concordium-std/src/state_btree.rs:694-704 | A key taken from a leaf is the only key that is gone |
| `BTreeForest.GrowShape` | concordium-std/src/state_btree.rs:431-436 | A new root above the old one keeps the shape and the set of keys |
| `BTreeForest.ShrinkShape` | concordium-std/src/state_btree.rs:754-759 | A root without keys can be replaced by its only child |
| `BTreeForest.ReplaceShape` | concordium-std/src/state_btree.rs:705-720 | Putting the predecessor or successor in the place of a key keeps the shape, although intervals elsewhere end at that key |
| `BTreeOrder.TraversalIsTheSet` | concordium-std/src/state_btree.rs:480-488 | The recursive in-order traversal ascends strictly and lists exactly the keys of the tree |
| `BTreeOrder.HeightBound` | concordium-std/src/state_btree.rs:1180-1217 | A tree of height `h` holds at least `2 * M^h - 1` keys |
| `BTreeOrder.OnePath` | concordium-std/src/state_btree.rs:1185-1193 | Two different paths from the root end at different nodes: no node is shared |
| `StateBTreeIteration.StateBTreeSetIter.Next` | concordium-std/src/state_btree.rs:1075-1098 | Returns the head of the in-order list that is still to come, or none at its end, with the length counter never below zero |
| `StateBTreeIteration.LoadStep` | concordium-std/src/state_btree.rs:1076-1082 | Loading the pending node on the stack changes nothing in what is still to be listed |
| `StateBTreeIteration.TakeStep` | concordium-std/src/state_btree.rs:1084-1097 | Taking a key from the last frame takes the head of what is still to be listed |
| `StateBTreeIteration.Collect` | concordium-std/src/state_btree.rs:480-488 | Running the iterator to its end yields `len` keys, strictly ascending, exactly those of the set |
| `StateBTreeMaps.StateBTreeMap.Insert` | concordium-std/src/state_btree.rs:123-133 | The values become the old ones with the new entry, the previous value is returned, both parts keep the same keys, and the trap is unreachable |
| `StateBTreeMaps.StateBTreeMap.RemoveAndGet` | concordium-std/src/state_btree.rs:144-154 | The entry is gone from both parts, its value is returned, and the trap is unreachable |
| `StateBTreeMaps.StateBTreeMap.Remove` | concordium-std/src/state_btree.rs:158-165 | The entry is gone from both parts |
| `StateBTreeMaps.StateBTreeMap.Get` | concordium-std/src/state_btree.rs:168-179 | The value of the key, also where an empty map skips the lookup |
| `StateBTreeMaps.StateBTreeMap.ContainsKey` | concordium-std/src/state_btree.rs:197-203 | True exactly for the keys of the map |
| `StateBTreeMaps.StateBTreeMap.LastKey` | concordium-std/src/state_btree.rs:251-256 | The greatest key of the map, none exactly for the empty one |
| `StateBTreeMaps.StateBTreeMap.Len` | concordium-std/src/state_btree.rs:259-259 | The number of entries |
| `StateBTreeMaps.StateBTreeMap.Entries` | concordium-std/src/state_btree.rs:1124-1129 | Iteration lists exactly the entries, in the order of their keys, and never meets a key without a value |
| `StateBTreeMaps.Run` | concordium-std/src/state_btree.rs:123-301 | Every sequence of insert, remove and clear from an empty map answers and ends like a mathematical map |
| `InvocationSteps.InvokeEntrypoint` | contract-testing/src/invocation/impls.rs:264-1050 | For every interpreter there is a sequence of machines (`IsInvocation`): the first has the call and no changes, each iteration does what `Iterates` says, and the last one holds the response, the trace, the change sets and the energy, or is stopped or panics there; the result is as promised (`ResultOk`): a panic exactly if an iteration panics, and only energy can run out |
| `InvocationSteps.StepIterates` | contract-testing/src/invocation/impls.rs:270-1050 | One iteration, from any machine in the invariant: the item on top is started or resumed as `Starts` and `Returns` say, and the run of the interpreter leads to what `RunDoes` says: the change set on top differs by exactly one payment, one saved state and one saved module; energy is what the run leaves less the price of the interrupt, and runs out exactly if that is not there; trace, next index, waiting callers and what the contract is told are given |
| `InvocationSteps.InitialStarts` | contract-testing/src/invocation/impls.rs:78-242 | Starting a call moves its amount from the sender to the called contract, self-payment and amount zero included, exactly if the contract exists and the sender has the amount; the entrypoint runs with the state that its contract has in the change set; it stops exactly if 300 and the lookup are not there, and fails otherwise, with no balance changed unless only the entrypoint is missing |
| `InvocationSteps.NotStartedUndone` | contract-testing/src/invocation/impls.rs:304-341 | A call that fails before it runs, after its amount was moved or before, leaves its caller with the change sets below its own, told of a failure |
| `InvocationSteps.CallReturns` | contract-testing/src/invocation/impls.rs:304-369 | Back from a call the caller is told its own balance, or a failure; a failure removes one change set, a success none; the state is replaced exactly if the modification index is another one |
| `InvocationSteps.TransferDoes` | contract-testing/src/invocation/impls.rs:466-551 | A transfer to an account moves the amount exactly if the account exists and the contract has it; the contract is told its new balance, or a failure, and pays the price of a transfer either way |
| `InvocationSteps.CallDoes` | contract-testing/src/invocation/impls.rs:552-629 | A call of a missing contract is answered with a failure; any other one copies the change set and puts the callee above the waiting caller |
| `InvocationSteps.UpgradeDoes` | contract-testing/src/invocation/impls.rs:630-724 | The module changes exactly if it is deployed and has the contract; 300, the lookup and 200 are charged as far as the upgrade gets |
| `InvocationSteps.QueryDoes` | contract-testing/src/invocation/impls.rs:725-972 | A query costs its price, is answered exactly if what it asks about is found, and changes nothing |
| `InvocationSteps.CheckSignatureDoes` | contract-testing/src/invocation/impls.rs:806-877 | Checking signatures costs 200, and for each signature 100 and one more for every ten bytes of data, if the account exists and the data can be read |
| `InvocationSteps.FinishedDoes` | contract-testing/src/invocation/impls.rs:395-439 | A frame that ends saves its state under the next index, and its response is the balance of its contract |
| `InvocationSteps.FailedDoes` | contract-testing/src/invocation/impls.rs:973-1039 | A frame that is rejected or trapped keeps the energy that the run left, none if the interpreter itself failed; its trace becomes one element, the next index is reset, and the change sets stay |
| `InvocationEffects.RunLeaves` | contract-testing/src/invocation/impls.rs:1453-1573 | A run leaves the least energy that covers the interpreter energy that remains, at most what there was |
| `InvocationEffects.LeftIsOne` | contract-testing/src/invocation/impls.rs:1453-1573 | There is only one such energy |
| `InvocationEffects.SignaturesCounted` | contract-testing/src/types.rs:168-168 | Every signature of every credential is counted once |
| `InvocationProofs.RunOk` | contract-testing/src/invocation/impls.rs:264-1050 | Every run from a machine in the invariant ends as promised: it panics if and only if one of its iterations does; only energy can run out, and none is gained; every change set has deltas that sum to zero and balances that are not negative; the final trace has no element of a failed frame or of one it led to; one change set remains for each call that succeeded and one more; every return is as promised |
| `InvocationMachine.RunHasMachines` | contract-testing/src/invocation/impls.rs:270-1050 | Every run has one machine for each iteration, each led to by the one before, and ends as it does from the last one, where no iteration goes on |
| `InvocationLimits.RunDoesNotPanic` | contract-testing/src/invocation/impls.rs:270-1050 | No run panics whose answers ask only for amounts that fit and send data as long as it says, with energy that fits 64 bits when counted by the interpreter, and with as many indices left as answers |
| `InvocationLimits.DoesNotPanic` | contract-testing/src/invocation/impls.rs:264-1050 | The same for invocations: these are conditions on what the caller passes and the contracts ask for |
| `InvocationLimits.PayloadReadsBack` | contract-testing/src/invocation/impls.rs:1601-1616 | Data with its length, and signatures that fit, are read back from what a contract sends, whatever follows |
| `InvocationLimits.PayloadExactly` | contract-testing/src/invocation/impls.rs:1601-1616 | Data and signatures are read exactly from payloads that are made of them and anything behind, and a payload is too short exactly if it has less data than it says |
| `InvocationExample.ShortDataPanics` | contract-testing/src/invocation/impls.rs:806-877 | A concrete invocation, of a contract that sends data shorter than it says to have signatures checked, panics |
| `InvocationExample.IndicesRunOut` | contract-testing/src/invocation/impls.rs:1357-1386 | An invocation that saves a state in each iteration panics after as many as there are modification indices, and one fewer never are too many |
| `InvocationProofs.StepKeeps` | contract-testing/src/invocation/impls.rs:270-1050 | One iteration keeps the invariant of work stack, change stack and trace, only spends energy, and panics exactly in the cases of `StepPanics`: an overflowing running delta, energy or modification index, or data that is too short |
| `InvocationProofs.ReturnFailureOk` | contract-testing/src/invocation/impls.rs:304-341 | Resuming after a failed call pops a change set that is there; the caller finds the change sets of its checkpoint exactly when no call inside the failed one succeeded |
| `InvocationProofs.ReturnSuccessOk` | contract-testing/src/invocation/impls.rs:304-341 | Resuming after a call that succeeded finds a response, and leaves all change sets of the callers below |
| `InvocationProofs.CallKeeps` | contract-testing/src/invocation/impls.rs:596-627 | A call leaves a checkpoint, a caller without response and a callee whose trace checkpoint and frame are above those of all callers |
| `InvocationProofs.FailedOk` | contract-testing/src/invocation/impls.rs:973-1039 | Cutting the trace at the checkpoint of a failed frame is in range and leaves no element of the frame or of one it led to |
| `InvocationProofs.RunOnlySpends` | contract-testing/src/invocation/impls.rs:1453-1573 | Whatever the interpreter says remains, energy does not grow, nothing used costs nothing, and at least what remains is kept |
| `InvocationStates.ResumesWithActualState` | contract-testing/src/invocation/impls.rs:304-341 | In every run, whatever the interpreter answers: as long as no failed call had a successful one inside, every frame that is started or resumed goes on with the state the change set has for its contract, although it compares modification indices only and indices are reset after failures |
| `InvocationStates.ReturnSuccessFresh` | contract-testing/src/invocation/impls.rs:331-341 | After a call that succeeded, an unchanged modification index means an unchanged state |
| `InvocationStates.StepFresh` | contract-testing/src/invocation/impls.rs:270-1050 | One iteration keeps the order of modification indices along the work stack and the states of all waiting callers |
| `InvocationExample.FailedCallNotUndone` | contract-testing/src/invocation/impls.rs:1631-1639 | A concrete run ends in success with the state that a rejected call had written, and the caller goes on with the old state, told that nothing changed |
| `ChangeSets.ContractChange` | contract-testing/src/invocation/impls.rs:1140-1187 | A contract balance changes by the delta, and the sum of all deltas with it; it fails exactly when the balance would be negative, and panics exactly when the running delta overflows |
| `ChangeSets.AccountChange` | contract-testing/src/invocation/impls.rs:1189-1228 | An account balance changes by the delta, and the sum of all deltas with it; it fails exactly when the balance would be negative, and panics exactly when the running delta overflows |
| `ChangeSets.ContractToAccount` | contract-testing/src/invocation/impls.rs:1059-1080 | Goes through exactly when the account exists and the contract has the amount, and moves that amount and nothing else; otherwise it is refused, or panics exactly when the running delta overflows |
| `ChangeSets.ContractToContract` | contract-testing/src/invocation/impls.rs:1084-1103 | Goes through exactly when the receiver exists and the sender has the amount, also for a contract that pays itself; panics exactly when the running delta overflows |
| `ChangeSets.AccountToContract` | contract-testing/src/invocation/impls.rs:1107-1136 | Goes through exactly when the contract exists and the account has the amount above what is reserved; panics exactly when the running delta overflows |
| `ChangeSets.SavedStateKeepsBalances` | contract-testing/src/invocation/impls.rs:1357-1386 | Saving a state moves no balance |
| `ChangeSets.SavedModuleKeepsBalances` | contract-testing/src/invocation/impls.rs:1399-1438 | Saving a module moves no balance |
| `ChangeSets.TotalReported` | contract-testing/src/invocation/impls.rs:1315-1338 | The total of an account is reported exactly if its balance did not change or nothing of it is staked or locked |
| `ChangeSets.BalanceReported` | contract-testing/src/invocation/impls.rs:1241-1246 | A contract that asks is told of every contract what it had and what it has gained since, and of no other |
| `ChangeSets.ModuleReported` | contract-testing/src/invocation/impls.rs:1248-1255 | The module of a contract is reported exactly if nothing of it changed or it was upgraded; otherwise the contract is said not to exist |
| `ChangeSets.SavedStateHidesModule` | contract-testing/src/invocation/impls.rs:1248-1255 | Saving a state for the first time hides the module of the contract from queries |
| `ChangeSets.StakeNotReported` | contract-testing/src/invocation/impls.rs:1315-1338 | An account with 90 of 100 staked that receives 5 is said to have 15 in all |
| `ChangeSets.FittingAmounts` | contract-testing/src/invocation/impls.rs:1774-1831 | An amount that, together with all that can be spent, fits 64 bits never overflows a running delta, whoever pays it |
| `ChangeSets.LargestAmount` | contract-testing/src/invocation/impls.rs:1774-1831 | The largest amount overflows the running delta of every contract that has paid anything |
| `InvocationExample.LargestAmountPanics` | contract-testing/src/invocation/impls.rs:1140-1187 | A concrete invocation, of a contract that pays 1 and then asks for the largest amount, panics |
| `Amounts.CostIsLeast` | contract-testing/src/impls.rs:2192-2208 | The price is the least whole number that covers the energy at the two rates, spelled out as numerators and denominators |
| `Amounts.CostGrows` | contract-testing/src/impls.rs:2192-2208 | The price of less energy is not higher |
| `Amounts.CheckIsExact` | contract-testing/src/impls.rs:2214-2231 | Every pair of rates that passes the check prices an energy within 64 bits if and only if the energy is at most 99,999,999,857, which is below the documented 10^11 |
| `Amounts.SteepOverflows` | contract-testing/src/impls.rs:2192-2231 | Concrete rates that pass the check and overflow at every energy beyond that |
| `ChainUpdate.PersistConserves` | contract-testing/src/invocation/impls.rs:1665-1733 | Persisting balanced changes neither creates nor destroys CCD and leaves the invoker what was reserved |
| `ChainUpdate.Chain.Persist` | contract-testing/src/invocation/impls.rs:1665-1733 | Every contract has the balance, module and state of the change set and every account what it gained (`Becomes`), the chain stays valid with the same total, and the invoker has what was reserved |
| `ChainUpdate.Chain.ContractUpdate` | contract-testing/src/impls.rs:1064-1193 | For any valid chain and any request: what is returned is given under the conditions of `Says`, in kind, energy and fee; the chain then is what `Becomes` says: contracts and accounts have the changes of the run if it succeeded, the invoker has paid the reported fee exactly if it is `Charged`, and nothing else changes |
| `ChainUpdate.ReportedSays` | contract-testing/src/impls.rs:919-1193 | Each answer is given exactly under its condition, in terms of sender, invoker, balances, prices and the end of the run (`Says`): a success has used what is reserved less what the run and storing the state leave, a failed run what is reserved less what it leaves, running out of energy all of it; a balance never overflows |
| `ChainUpdate.ChargedExactly` | contract-testing/src/impls.rs:1064-1193 | A fee is taken if and only if the reserve could be paid, a fee is reported, and the invocation did not succeed only to find no energy for storing its state |
| `ChainUpdate.RunOfIterates` | contract-testing/src/impls.rs:976-1000 | The run of an update is one of the machine, with the energy that the header leaves and the price of all energy reserved |
| `ChainUpdate.UpdateBecomes` | contract-testing/src/impls.rs:1064-1193 | After every update, each contract has the balance, the module and the state of the last change set of a successful run, or those it had; each account has gained what it gained there, in all and to spend, and only the invoker has paid the fee, exactly if it is charged for |
| `ChainUpdate.PersistedBecomes` | contract-testing/src/invocation/impls.rs:1700-1733 | Persisting balanced changes gives every contract its balance, module and state of the change set, and every account what it gained |
| `ChainUpdate.UpdateConserves` | contract-testing/src/impls.rs:1064-1193 | Over every update the chain stays valid and the total CCD falls by the reported fee if it is a success or a charged error, and by nothing otherwise; the fee is at most that of the reserved energy; no account or contract appears or disappears |
| `ChainUpdate.NoPanic` | contract-testing/src/impls.rs:1064-1193 | An update does not panic if the price of the energy and the amount fit 64 bits together, so does the remaining energy as the interpreter counts it, the answers ask only for what fits, and there are fewer of them than indices |
| `ChainUpdate.PanicsExactly` | contract-testing/src/impls.rs:1064-1193 | An update panics if and only if the price of the reserved energy exceeds 64 bits, or it can be paid and exceeds them together with the amount, or both can be paid and the invocation panics |
| `ChainUpdate.PricePanics` | contract-testing/src/impls.rs:2192-2208 | A concrete chain with rates that pass the check, and an update whose price does not fit |
| `ChainUpdate.AmountPanics` | contract-testing/src/impls.rs:956-972 | A concrete chain and update whose amount does not fit with what is reserved |
| `ChainUpdate.EnergyPanics` | contract-testing/src/impls.rs:2161-2162 | A concrete chain and update that pay 20000 for an energy that does not fit when counted by the interpreter |
| `ChainUpdate.Chain.Settle` | contract-testing/src/impls.rs:1144-1193 | The end of an invocation: a success is persisted and charged, a failure charged, and when storing the state runs out of energy nothing is |
| `ChainUpdate.StoringNotCharged` | contract-testing/src/impls.rs:1158-1169 | A concrete chain and update that reports a fee of 10000 for running out of energy when storing, and leaves the chain as it was |
| `ChainUpdate.InsufficientNotCharged` | contract-testing/src/impls.rs:1119-1132 | A concrete chain and update that reports a fee of 100 for insufficient funds, and leaves the chain as it was |
| `ChainUpdate.Chain.InvocationWorker` | contract-testing/src/impls.rs:919-1003 | Each early error, and the panic of a sum that does not fit, is returned exactly in its case; otherwise the result is that of the run of the invocation |
| `Codecs.LeConcat` | concordium-std/src/impls.rs:2401-2401 | The lowest byte comes first: what follows counts 256 to the number of bytes before it |
| `Codecs.LeRoundTrip` | concordium-std/src/impls.rs:777-780 | Little-endian bytes are read back as the number written |
| `Codecs.NodesReadBack` | concordium-std/src/state_btree.rs:1179-1194 | The encoding of a node delimits itself: whatever follows, the node is read back and nothing more |
| `ContractState.OverwriteHolds` | concordium-std/src/impls.rs:1252-1260 | A value written over a longer one without truncation is read back |
| `ContractState.WritesCompose` | concordium-std/src/impls.rs:415-437 | Writing a value piece by piece is writing it at once, over whatever the entry held |
| `ContractState.StateEntry.Truncate` | concordium-std/src/impls.rs:250-271 | The entry is cut to the size if it is longer, and the cursor stays inside it |
| `ContractState.StateRefMut.Get` | concordium-std/src/impls.rs:1182-1216 | The value the handle stands for, loaded at the first use; nothing is written |
| `ContractState.StateRefMut.Set` | concordium-std/src/impls.rs:1219-1226 | The entry reads as the new value at once and no other entry changes |
| `ContractState.StateRefMut.Update` | concordium-std/src/impls.rs:1229-1249 | The entry reads as the function applied to the value the handle stood for |
| `ContractState.StateRefMut.StoreMutations` | concordium-std/src/impls.rs:1252-1260 | After write-back the entry reads as the value the handle stood for, no other entry changes, and every other live handle, to another entry, still stands for its value |
| `StateContainers.Isolated` | concordium-std/src/impls.rs:2320-2322 | A change under one prefix changes nothing under another one of the same length |
| `StateContainers.Untouched` | concordium-std/src/impls.rs:902-1046 | A map keeps its contents whatever happens under another prefix |
| `StateContainers.Put` | concordium-std/src/impls.rs:923-941 | Storing an encoded value under the key of a map updates the represented map at that key only |
| `StateContainers.Dropped` | concordium-std/src/impls.rs:1014-1029 | Deleting the entry of a key removes that key from the represented map only |
| `StateContainers.StateMap.Get` | concordium-std/src/impls.rs:902-908 | The value of the key in the represented map, or none |
| `StateContainers.StateMap.GetMut` | concordium-std/src/impls.rs:913-917 | A handle that stands for the value of the key, or none exactly when there is none |
| `StateContainers.StateMap.Mutate` | concordium-std/src/impls.rs:913-917 | A value changed through a handle that is then dropped is the value of the key, and nothing else changes |
| `StateContainers.StateMap.Insert` | concordium-std/src/impls.rs:923-951 | The represented map gets the entry, the old value is returned, and nothing outside the prefix changes |
| `StateContainers.StateMap.RemoveAndGet` | concordium-std/src/impls.rs:1014-1029 | The represented map loses the key, its value is returned, and nothing outside the prefix changes |
| `StateContainers.StateMap.ClearFlat` | concordium-std/src/impls.rs:997-1005 | The represented map becomes empty and nothing outside the prefix changes |
| `StateContainers.StateSet.Insert` | concordium-std/src/impls.rs:1278-1287 | The represented set gets the element, the result says whether it is new, and nothing outside the prefix changes |
| `StateContainers.StateSet.Remove` | concordium-std/src/impls.rs:1312-1324 | The represented set loses the element, the result says whether it was there, and nothing outside the prefix changes |
| `StateContainers.StateSet.Contains` | concordium-std/src/impls.rs:1293-1296 | True exactly for the elements of the represented set |
| `StateContainers.StateSet.Clear` | concordium-std/src/impls.rs:1302-1308 | The represented set becomes empty and nothing outside the prefix changes |
| `StateContainers.NodeEntries.CreateNode` | concordium-std/src/state_btree.rs:929-946 | The stored nodes get the new one, with a live handle to it, and nothing outside the prefix changes |
| `StateContainers.NodeEntries.DropHandle` | concordium-std/src/impls.rs:1170-1172 | The stored nodes are updated at the id of the handle only, whatever longer node the entry held |
| `StateContainers.NodeEntries.DeleteNode` | concordium-std/src/state_btree.rs:950-956 | The stored nodes lose the id and nothing outside the prefix changes |
| `StateContainers.NodeEntries.DeleteEvery` | concordium-std/src/state_btree.rs:498-500 | No node is stored any more and nothing outside the prefix changes |
| `StateContainers.NodeEntries.DropTwo` | concordium-std/src/state_btree.rs:1004-1025 | Of two handles live at once, to different nodes, dropping one leaves the other what it was, so that both nodes are stored |
| `StateContainers.NodeEntries.Do` | concordium-std/src/state_btree.rs:929-956 | Each operation of a tree on its nodes, done through handles, is the step on the bytes and the step on the represented nodes |
| `StateContainers.RunInBytes` | concordium-std/src/state_btree.rs:929-956 | Over every sequence of such operations from an unused prefix, the bytes under it represent exactly the nodes, and nothing outside it changes |
| `TreeInBytes.TreeIsInBytes` | concordium-std/src/state_btree.rs:411-450 | For every tree in every state it can be in: doing to the bytes what it did to its nodes leaves entries that are exactly its nodes, overwritten longer ones notwithstanding, and touches nothing outside its prefix |
| `MapInBytes.RunInBytes` | concordium-std/src/state_btree.rs:123-165 | However operations on values and on nodes alternate, from an unused pair of prefixes the one store holds exactly the values of the mathematical map and the nodes of the tree, and nothing else changes |
| `MapInBytes.MapIsInBytes` | concordium-std/src/state_btree.rs:123-165 | A `StateBTreeMap` after any operations, done to the bytes: its values under one prefix, the nodes of its order under the other one, and an entry for a key exactly if the order has the key |
| `MapInBytes.PerformOnBytes` | concordium-std/src/impls.rs:923-1029 | Each operation on the values, done by a `StateMap`, is that step on the bytes and on the mathematical map |
| `StateBuilding.StateBuilder.GetAndUpdateItemPrefix` | concordium-std/src/impls.rs:2382-2402 | The prefix is the next number, nothing is stored under it, and only the counter changes |
| `StateBuilding.WorkKeepsCounter` | concordium-std/src/impls.rs:774-780 | Work under a prefix that was handed out changes neither the counter nor what is reserved for later prefixes |
| `StateBuilding.PrefixInjective` | concordium-std/src/impls.rs:2401-2401 | Different numbers give different prefixes |
| `StateBuilding.RunRefines` | concordium-std/src/impls.rs:2320-2402 | Over every run of allocations, writes, deletions, clears and root updates, with fewer than 2^64 - 2 allocations, the flat store acts as a family of independent stores and a root |
| `StateBuilding.ReachableRefines` | concordium-std/src/impls.rs:2320-2402 | Every state reached from the empty one is a family of independent stores and a root |
| `StateBuilding.StateBuilder.NewMap` | concordium-std/src/impls.rs:2325-2328 | A new map is empty, whatever the store holds, under the next prefix |
| `StateBuilding.StateBuilder.NewSet` | concordium-std/src/impls.rs:2331-2334 | A new set is empty, whatever the store holds, under the next prefix |
| `Containers.Containers.PerformAll` | concordium-std/src/impls.rs:902-1324 | Any sequence of calls on any number of maps and sets, new ones handed out in between, changes what they hold, and is answered, as independent maps and sets would |
| `Containers.RunContract` | concordium-std/src/impls.rs:2320-2402 | The same for every program from an empty state, with fewer than 2^64 - 2 calls |
| `Containers.EachAlone` | concordium-std/src/impls.rs:2320-2322 | Over every sequence of calls, each container becomes what its own calls alone make of it |
| `Containers.NewMapAlone` | concordium-std/src/impls.rs:2325-2328 | A map that is handed out on the way begins empty, and becomes what its own calls alone make of it |
| `Containers.MapChanged` | concordium-std/src/impls.rs:2320-2322 | A call of one map keeps all containers, and the counter, in the store as they were but for that map |
| `Containers.MapAdded` | concordium-std/src/impls.rs:2382-2402 | A map that is handed out is empty and has a prefix of its own, and all other containers stay |
| `Bits.RoundUpAligns` | concordium-std/src/bump_alloc.rs:224-224 | The mask form of rounding up gives the least aligned address that is not below |
| `BumpAllocation.PagesCover` | concordium-std/src/bump_alloc.rs:241-243 | The pages asked for cover the space needed, and one page less would not |
| `BumpAllocation.BumpAllocator.Alloc` | concordium-std/src/bump_alloc.rs:142-195 | The block is new, aligned and the least such address from `next` on, `next` is then its end, and the memory has grown by no page more than that takes; live blocks stay disjoint and inside the heap; it fails if and only if no aligned block from `next` on fits the memory limit, and then hands out nothing |
| `BumpAllocation.BumpAllocator.Dealloc` | concordium-std/src/bump_alloc.rs:197-215 | Only the freed block is gone; `next` goes back to the start of the heap when none is left, to the last block when that is the one freed, and nowhere else, and stays above every live block |
| `TokenAmounts.DecodesNumbers` | concordium-cis2/src/lib.rs:735-749 | Any LEB128 number of at most 37 bytes that fits the width, padded or not, is decoded to its value, and nothing behind it is read |
| `TokenAmounts.DecodesWholeNumbers` | concordium-cis2/src/lib.rs:735-749 | Whatever is decoded, for any width, comes from a whole LEB128 number of at most 37 bytes, and the rest is what follows it; the value is below the width, and is the number if that fits |
| `TokenAmounts.RoundTrip` | concordium-cis2/src/lib.rs:717-749 | Decoding undoes encoding for every width up to 256 bits, whatever follows, within 37 bytes |
| `TokenAmounts.Serial` | concordium-cis2/src/lib.rs:717-733 | The loop writes the encoding |
| `TokenAmounts.Deserial` | concordium-cis2/src/lib.rs:735-749 | The loop decodes as specified, wrapped shifts and overflow errors included |
| `TokenAmounts.DeserialU256` | concordium-cis2/src/lib.rs:855-880 | Succeeds exactly when the input starts with a LEB128 number below 2^256 of at most 37 bytes, and returns that number and the rest |
| `TokenAmounts.RoundTripU256` | concordium-cis2/src/lib.rs:837-880 | Whatever a decoder with that contract returns for an encoding followed by anything is the encoded number |
| `TokenAmounts.EncodeIsLeading` | concordium-cis2/src/lib.rs:717-733 | An encoding is one LEB128 number, the encoded one |
| `TokenAmounts.PayloadIsMask` | concordium-cis2/src/lib.rs:735-749 | The mask of the lowest seven bits is the remainder by 128 |
| `TokenAmounts.ContinuesIsMask` | concordium-cis2/src/lib.rs:735-749 | The highest bit is set exactly in bytes from 128 on |
| `TokenAmounts.HighBitsAreMask` | concordium-cis2/src/lib.rs:855-880 | The upper four bits are clear exactly in numbers below 16 |
| `AccountSignatures.InnerLayout` | contract-testing/src/types.rs:171-187 | Signatures are written one after the other, each with its key and the scheme tag |
| `AccountSignatures.OneCredential` | contract-testing/src/types.rs:171-187 | A credential is written as its key, its number of signatures and these |
| `AccountSignatures.CredentialsCounted` | contract-testing/src/types.rs:171-187 | The credentials are written behind their number |
| `AccountSignatures.OuterLayout` | contract-testing/src/types.rs:171-187 | Credentials are written one after the other |
| `AccountSignatures.AcceptsExactly` | contract-testing/src/types.rs:190-235 | Reading returns a value and a rest exactly when the input is the encoding of that value, with strictly increasing keys and 64-byte signatures, followed by that rest |
| `AccountSignatures.RoundTrip` | contract-testing/src/types.rs:171-235 | Reading undoes writing exactly for maps of at most 255 entries each and signatures of 64 bytes |
| `AccountSignatures.FullMapIsLost` | contract-testing/src/types.rs:171-235 | Every map with all 256 keys is written with length zero and read back as the empty map, all entries left as the rest |
| `AccountSignatures.FullMapExists` | contract-testing/src/types.rs:171-235 | There is such a map, with increasing keys, that is not read back |
| `AccountSignatures.WriteSignatures` | contract-testing/src/types.rs:171-187 | The nested loops write the encoding |
| `AccountSignatures.DeserialSignatures` | contract-testing/src/types.rs:190-235 | The nested loops read as specified, although each inner entry is inserted one step late |
| `DynamicNftProofs.RunLater` | examples/cis2-dynamic-nft/src/lib.rs:553-663 | Over every run of calls, hooks that call back included, the balances of each token add up to the amount minted and each metadata counter stays inside its list, while the supply fits 64 bits |
| `DynamicNftProofs.Reachable` | examples/cis2-dynamic-nft/src/lib.rs:553-663 | In every state reached from the first one, with a supply that fits 64 bits, balances add up to the amount minted and counters are inside their lists |
| `DynamicNftProofs.RunKept` | examples/cis2-dynamic-nft/src/lib.rs:613-663 | An address loses no tokens in a run unless it or one of its operators sends a call |
| `DynamicNftProofs.TransferMoves` | examples/cis2-dynamic-nft/src/lib.rs:298-332 | A transfer takes the amount from one address and gives it to the other, also to itself, and changes no other balance and no operator |
| `DynamicNftProofs.ActLater` | examples/cis2-dynamic-nft/src/lib.rs:458-587 | Minting, upgrading and adding metadata keep sums and counters; an upgrade beyond the list is aborted |
| `DynamicNftCalls.OperatorsUpdated` | examples/cis2-dynamic-nft/src/lib.rs:679-705 | After `updateOperator` an address is an operator of the sender exactly if the last update that names it adds it, or none names it and it was one; nothing else changes |
| `DynamicNftCalls.TransferGoesThrough` | examples/cis2-dynamic-nft/src/lib.rs:613-663 | A transfer of a batch goes through exactly if its sender is the owner or an operator at that point, the token is known, the amount is there and the hook does not fail; the hook runs in the state after the transfer |
| `DynamicNftCalls.RemovedCannotTransfer` | examples/cis2-dynamic-nft/src/lib.rs:613-663 | An operator that was removed by the last update that names it can no longer transfer |
| `DynamicNftCalls.HooksAreCalls` | examples/cis2-dynamic-nft/src/lib.rs:613-663 | Every run, hooks that call back to any depth included, is a row of calls without hooks that all succeed, the calls of each hook between the transfers of its batch |
| `DynamicNftCalls.TokenUpgraded` | examples/cis2-dynamic-nft/src/lib.rs:212-222 | An upgrade succeeds exactly while there is a next entry, and moves the counter of its token on by one; lists, other counters, balances and operators stay |
| `DynamicNftCalls.TokensMinted` | examples/cis2-dynamic-nft/src/lib.rs:192-208 | While the supply fits 64 bits, the owner named gains the amount of each token and nobody else anything, and each token has the metadata of the last parameter for it |
| `DynamicNftCalls.MintSucceeds` | examples/cis2-dynamic-nft/src/lib.rs:553-585 | Minting succeeds exactly if every token comes with metadata |
| `DynamicNftCalls.MetadataAdded` | examples/cis2-dynamic-nft/src/lib.rs:503-528 | Adding metadata succeeds exactly if all tokens can be looked up, and puts the entries at the ends of their lists in order |
| `DynamicNftCalls.OnlyAdminActs` | examples/cis2-dynamic-nft/src/lib.rs:458-587 | Nobody but the owner of the contract mints, upgrades or adds metadata |
| `DynamicNft.Contract.Transfer` | examples/cis2-dynamic-nft/src/lib.rs:298-332 | The state after a transfer, and exactly when it fails |
| `DynamicNft.Contract.MintToken` | examples/cis2-dynamic-nft/src/lib.rs:192-208 | The state after minting, metadata of an earlier mint replaced |
| `DynamicNft.Contract.UpgradeEntrypoint` | examples/cis2-dynamic-nft/src/lib.rs:458-484 | The state after an upgrade, which succeeds only while there is a next entry |
| `DynamicNft.Contract.TransferEntrypoint` | examples/cis2-dynamic-nft/src/lib.rs:613-663 | The loop over a batch with its hooks is the specified run |
| `DynamicNft.Contract.Invoke` | examples/cis2-dynamic-nft/src/lib.rs:553-663 | A call ends in the specified state, or in the state before it if it fails |
| `Cis2Nft.RunLater` | examples/cis2-nft/src/lib.rs:422-472 | Over every run of calls, hooks that call back included, no token disappears and each one has exactly one owner |
| `Cis2Nft.Reachable` | examples/cis2-nft/src/lib.rs:422-472 | In every state reached from the first one, each token has exactly one owner |
| `Cis2Nft.RunKept` | examples/cis2-nft/src/lib.rs:422-472 | An address loses no token in a run unless it or one of its operators sends a call |
| `Cis2Nft.TransferMoves` | examples/cis2-nft/src/lib.rs:207-239 | A transfer hands the token to the receiver and changes nothing else |
| `NftCalls.OperatorsUpdated` | examples/cis2-nft/src/lib.rs:488-513 | After `updateOperator` an address is an operator of the sender exactly if the last update that names it adds it, or none names it and it was one; nothing else changes |
| `NftCalls.TransferGoesThrough` | examples/cis2-nft/src/lib.rs:422-472 | A transfer of a batch goes through exactly if its sender is the owner or an operator at that point, the token is known, the amount is there and the hook does not fail; the hook runs in the state after the transfer |
| `NftCalls.RemovedCannotTransfer` | examples/cis2-nft/src/lib.rs:422-472 | An operator that was removed by the last update that names it can no longer transfer |
| `NftCalls.HooksAreCalls` | examples/cis2-nft/src/lib.rs:422-472 | Every run, hooks that call back to any depth included, is a row of calls without hooks that all succeed, the calls of each hook between the transfers of its batch |
| `NftCalls.TokensMinted` | examples/cis2-nft/src/lib.rs:158-170 | Minting succeeds exactly for tokens that are all new and different; they are then owned by the owner named, and nothing else changes |
| `NftCalls.OnlyAdminMints` | examples/cis2-nft/src/lib.rs:357-395 | Nobody but the owner of the contract mints |
| `Cis2Nft.Contract.Balance` | examples/cis2-nft/src/lib.rs:182-195 | One for the owner and zero for everyone else, and an error exactly for tokens that do not exist |
| `Cis2Nft.Contract.MintToken` | examples/cis2-nft/src/lib.rs:158-170 | The state after minting, which fails exactly for a token that exists |
| `Cis2Nft.Contract.TransferEntrypoint` | examples/cis2-nft/src/lib.rs:422-472 | The loop over a batch with its hooks is the specified run |
| `Cis2Nft.Contract.Invoke` | examples/cis2-nft/src/lib.rs:422-472 | A call ends in the specified state, or in the state before it if it fails |

## Left out

- `StateMap::is_empty` and `StateSet::is_empty`: they look up the bare prefix, so they do not say whether there are elements.
- `StateMap::clear` and `remove` for values that own containers themselves, `StateBox`, the entry API, and iterators over the byte store.
- `StateBTreeMap::eq_or_higher`, `lower`, `eq_or_lower`, `first_key`, `get_mut` and `clear`: they pass on to the set or the value map like the members that are modelled.
- The value part of `StateBTreeMap` is a mathematical map; that a `StateMap` refines one is `StateContainers.StateMap`.
- Iterator locks on the state, entries beyond the size limit, and the host functions themselves: the store is a map with the documented behaviour.
- `commit_state` truncates to the current size of the entry; only that the root is the last value written is modelled (`SetRoot`).
- TokenAmounts.Deserial: no claim that numbers too large for the width are rejected; the shift drops high bits silently.
- Schema types, arithmetic operators and conversions of token amounts.
- The Wasm interpreter, the state trie, signature checks and cost functions: answers of an oracle or inputs.
- InvocationSteps.InvokeEntrypoint: what a query tells the contract is only modelled as far as `Ask` goes; exchange rates, keys and names are told as such.
- ChainUpdate.Chain.ContractUpdate: invocations with `contract_invoke`, `contract_init`, module deployment and transfers between accounts are not modelled.
- BumpAllocation.BumpAllocator.Alloc: memory above 2 GiB, where the address arithmetic could wrap, is not modelled.
- Logging in the token contracts: a full log only rejects the call.
- The remaining entrypoints of the token contracts (views, queries, implementors), and the CIS-2 client.
- External node queries, the chain builder, derive macros, error codes, and the smaller example contracts.
