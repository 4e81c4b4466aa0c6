# Verified model of the state database, staking and fee distribution

A Dafny model of three parts of an EVM-compatible Cosmos SDK chain, with proofs of the laws they are built on.

* **EVM state database** (`evm/types`). Live state objects in a slice with an index map, a typed journal with dirty
  counters, nested snapshots, a two-level storage cache, the access list, and the write-back to the account and
  key-value stores. The main theorems are that reverting to a snapshot restores everything a reader can see, for every
  run, and that a finished transaction writes back what the live database showed, less the accounts it must delete.
* **Staking** (`staking`). Deposits, shares, proxies, self delegations, the power index, bonded, unbonding and unbonded
  validators, two time queues, the election at the end of an epoch and the kick-out in the middle of one. The main
  theorem is that one invariant, which implies the four the program registers, holds after every run of sound messages
  and end-blocks, that no end-block panics, and that no coin is created or lost. A message is sound unless it unjails a
  destroyed validator or creates one at an address that a delegator with shares still lists.
* **Fee distribution** (`distribution/keeper`). The split of fees with truncating fixed-point arithmetic, the
  conservation of coins between module account, commissions and community pool, and who is paid what.
* **Both modules together** (`Chain`). Staking calls the distribution hooks, and distribution reads the staking
  validators.

Each part comes in two layers. Functions on immutable records say what an operation does, and the lemmas are about
them. Classes with the source's loops and in-place updates (`CommitStateDB`, `StateObjectCache`, the two `Keeper`s) are
proved to compute the same. `dafny verify dfyconfig.toml` checks everything.

## Reading guide

| files | content |
|---|---|
| `EvmTypes`, `AccessList`, `StateObject`, `Journal`, `StateDB` | values and operations of the state database |
| `Reverting`, `Snapshots`, `RipemdRuns` | inverse laws, the revert theorem and a run that breaks the dirty list |
| `Committing`, `Transactions`, `Observations`, `Marking` | write-back, whole transactions, reference meanings, which calls mark which accounts |
| `IndexedSlices`, `StateObjectCache`, `CommitStateDB` | slices with index maps and the imperative layer |
| `StakingStore`, `ValidatorSet`, `Sorting` | store, messages, end of block, key order |
| `StakingInvariants`, `ShareUpdates`, `ShareMoves`, `Proxies` | the invariant and the laws of shares and proxies |
| `StakingMessages`, `ProxyMessages`, `DelegatorMessages`, `ValidatorMessages` | every message keeps the invariant |
| `Elections`, `EpochElections`, `KickOuts`, `EndBlocks`, `StakingRuns` | the validator set, the end of a block, whole runs |
| `StakingMeanings`, `StakingWeights` | what each message means for every account, conservation, fresh shares, exact failures |
| `StakingLive`, `StakingWitness` | lists that stay alive, and a run that breaks the registered invariant |
| `StakingFrames`, `StakingRefusals` | what messages do to validator records, and exactly when each fails |
| `PowerRank`, `StakingKeeper` | byte keys of the ranking and the imperative layer |
| `Sums`, `Coins`, `Distribution`, `Conservation`, `DistributionRuns`, `Payments`, `DistributionKeeper` | fee distribution |
| `Chain` | staking and distribution together |

## Findings

* `deleteDirty` shifts the dirty list without reindexing it (evm/types/journal.go:123-131). That is harmless as long as
  only the last element goes, which holds except for the extra mark on address 0x03. `RipemdRevertBreaksIndex` gives a
  run of calls that corrupts the index and then panics, `RevertIffSafe` the exact condition.
* The registered delegator-add-shares invariant can be broken (staking/keeper/proxy.go:53-94,
  staking/keeper/min_self_delegation.go:58-64). Shares that round to zero let a validator be removed while a delegator
  still lists it; when the validator comes back and the delegator's shares are recomputed, shares it never had there are
  subtracted. `RegisteredFails` is such a run. The invariant survives a creation if and only if no delegator with shares
  lists the address (`CreateKeeps`), which holds whenever every weighing gives positive shares (`LiveRun`), and that is
  kept by a message if and only if its own weighings do (`MessageLive`).
* `resetObjectChange` dirties nothing (evm/types/journal.go:234-236), so a CreateAccount over an existing account alone
  is not written back; `ResetAloneIsLost` says exactly when that loses something. The new object also still reads the
  old account's committed storage, because storage keys depend on the address alone.
* `AllocateTokens` divides by zero when no voter is known and unjailed, or the unjailed validators have no shares
  (`AllocatePanics`). With staking the second cannot happen, since an unjailed validator always has its own share
  (`SharesDivide`, `FeesKeep`).
* An end-block halts the chain when the bank refuses to pay out the commission of a validator it removes
  (distribution/keeper/hooks.go:43-46); `StepKeeps` of `Chain` says exactly when.
* Once a validator is destroyed, the delegators that list it cannot deposit or withdraw in part, and nobody bound to such
  a delegator can withdraw or unbind, until the lists change (`DepositFails`, `WithdrawFails`).
* `Unjail` on a destroyed validator breaks the share invariant (`UnjailKeeps`); its caller is not part of this model.
* The comment at distribution/keeper/allocation.go gives the portions as 25 and 75 percent; the constants are 20 and 80
  (lines 14-17), and the model follows the constants.

## Assumptions

* Keccak is injective, so hashes are constructors of their preimages.
* Key-value stores are maps; an iterator yields a snapshot of the keys in key order.
* A message that fails, by error or by panic, is rolled back as a whole.
* Decimals are integers scaled by 10^18. Parameters are positive, the power reduction is constant, and the weight of a
  week is not negative.

## Model

| member | source | states |
|---|---|---|
| `AccessLists.AddAddressInverse` | evm/types/access_list.go:68-134 | adding an address keeps the structure, adds exactly it, reports whether it was new, and is undone exactly by deleting it |
| `AccessLists.AddSlotMeaning` | evm/types/access_list.go:81-105 | adding a slot keeps all positions -1 or in range and distinct, adds exactly that pair, reports exactly which of address and slot are new, and never takes the out-of-range guard |
| `AccessLists.AddSlotInverse` | evm/types/access_list.go:111-134 | undoing in journal order restores the list exactly; an emptied slot set is always the last one; deleting never panics |
| `StateObjects.CommitStateFlushes` | evm/types/state_object.go:238-272 | for an object whose dirty keys all have an origin, commitState loses no write despite its continue branches, leaves every read unchanged and keeps every other object valid |
| `StateObjects.CodeIsPreimage` | evm/types/state_object.go:316-334 | the code of a valid object is the preimage of its code hash |
| `Observations.CacheMeans` | evm/types/state_object.go:110-141 | the two-level storage cache is a plain map: GetState returns the last written value and SetState changes that key alone |
| `Observations.OperationMeans` | evm/types/statedb.go:186-318 | every operation has the effect its reference meaning gives on the observables of every account, slot and counter, and panics exactly on a negative balance or a refund underflow; which accounts it marks dirty is in Marking.OperationMarks |
| `Journals.AppendTracks` | evm/types/journal.go:46-51 | appending keeps the dirty list equal to the addresses of the entries in first-occurrence order with exact counts; touching 0x03 adds one extra mark |
| `Journals.PopTracks` | evm/types/journal.go:55-69 | undoing the last entry keeps the dirty list exact and its index right unless it clears an address listed before an extra-marked 0x03 |
| `Journals.ClearedIsLast` | evm/types/journal.go:123-131 | last in, first out: the address that loses its last mark is the last one listed, up to 0x03 |
| `Journals.RevertExact` | evm/types/journal.go:55-131 | reverting to n entries succeeds with a correct index exactly when every address listed before an extra-marked 0x03 still has an entry among the first n |
| `Journals.TracksCanonical` | evm/types/journal.go:46-131 | without touches of 0x03 the whole journal, dirty list and index included, is a function of its entries |
| `Snapshots.DoTouches` | evm/types/state_object.go:426-436 | an operation journals a touch of 0x03 exactly when it adds nothing to a missing or empty one |
| `Snapshots.RunTracks` | evm/types/journal.go:46-131 | every run whose reverts are safe keeps the dirty list exact, up to one extra mark on 0x03 per touch in the run |
| `Snapshots.RevertIffSafe` | evm/types/statedb.go:646-661 | RevertToSnapshot succeeds with a right dirty index if and only if every address listed before an extra-marked 0x03 has an entry older than the snapshot |
| `RipemdRuns.RipemdRevertBreaksIndex` | evm/types/journal.go:123-131 | from a new database: snapshot, change account 7, add nothing to 0x03, revert; the state is restored, the dirty index is wrong, and the next change to 0x03 panics |
| `Reverting.DoUndone` | evm/types/journal.go:197-374 | every operation is undone by the entries it journals, up to what no reader can tell apart: one inverse law per entry kind |
| `Reverting.UndoMonotone` | evm/types/journal.go:197-374 | undoing an entry respects indistinguishability, so unjournaled cache fills between entries do no harm |
| `Reverting.UndoesCompose` | evm/types/journal.go:55-69 | undoing two runs of entries in last-in-first-out order undoes their concatenation |
| `Snapshots.RevertRestores` | evm/types/statedb.go:630-661 | after every run of operations and nested snapshots and reverts above a snapshot, reverting to it restores existence, balance, nonce, code, storage, suicide flag, refund, logs, preimages and access list |
| `Snapshots.RevertRestoresJournal` | evm/types/statedb.go:630-661 | when no action touches an empty 0x03 the revert never panics and restores the journal field by field |
| `Snapshots.RevertInvalidates` | evm/types/statedb.go:646-661 | the reverted id and all later ones become invalid; older ids stay exactly as valid as they were |
| `Snapshots.IdsNeverReused` | evm/types/statedb.go:630-643 | over any run, an id valid at the end was valid at the start or was returned by a Snapshot of the run, and no Snapshot returns an id again |
| `Snapshots.RevertLoopSplits` | evm/types/journal.go:55-69 | the revert loop is the undoing of the state and the shrinking of the dirty list, independently of each other |
| `Committing.FinaliseAllAt` | evm/types/statedb.go:539-574 | the Finalise loop, deleting empty accounts or not: exact on every dirty account and invisible to the others |
| `Committing.CommitAllAt` | evm/types/statedb.go:496-534 | the Commit loop over the live objects, deleting empty accounts or not: exact on every account, in whatever slice order |
| `Committing.WriteBackExact` | evm/types/statedb.go:496-574 | after Finalise and Commit suicided accounts, and dirty empty ones when those are to be deleted, are absent; any other account reads back faithfully, code bytes included, if and only if it is dirty or already read like the store |
| `Transactions.UnmarkedReadsLikeStore` | evm/types/journal.go:226-374 | in a transaction from a settled database an account without a dirty mark reads like the store |
| `Transactions.TransactionWritesBack` | evm/types/statedb.go:496-574 | any run of operations, snapshots and safe reverts in which accounts that are reset also get a dirty mark, followed by Finalise and Commit, writes every account faithfully, code bytes included, and leaves the database settled for the next transaction |
| `Transactions.NewAtRest` | evm/types/statedb.go:130-152 | a new database over valid stores is settled, so runs can start from it |
| `Transactions.ResetAloneIsLost` | evm/types/journal.go:230-236 | a CreateAccount over an existing account with nothing else journaled is written back if and only if there was no nonce and no code to reset |
| `Committing.WriteBackFails` | evm/types/statedb.go:496-574 | Finalise and Commit fail if and only if a dirty account that is neither suicided nor deleted for being empty is blacklisted; Commit never fails after Finalise |
| `Marking.OperationMarks` | evm/types/state_object.go:110-236 | an operation that succeeds journals an entry that dirties an account if and only if, by what a reader saw before the call, it creates the account, is a setter that changes something, is a suicide of an existing account, or adds nothing to one with balance 0, nonce 0 and no code |
| `Marking.OperationDirties` | evm/types/journal.go:46-51 | after an operation that succeeds an account is in the dirty list if and only if it was, or the operation marks it |
| `Marking.RunMarks` | evm/types/journal.go:46-131 | after every run with safe reverts exactly the accounts of a plain ledger are dirty: marks entered call by call from readings, saved at a snapshot and restored by a revert, except that 0x03 once touched stays marked |
| `Marking.TransactionMeans` | evm/types/statedb.go:496-574 | a new database over the stores written by any run, Finalise and Commit reads every account as it was last read, except that suicided accounts and, when empty ones are to be deleted, marked accounts with balance 0, nonce 0 and no code are gone |
| `Marking.TransactionFails` | evm/types/statedb.go:496-574 | writing back after a run fails if and only if a marked account that is neither suicided nor deleted for being empty is blacklisted |
| `Marking.TouchDeletes` | evm/types/state_object.go:166-175 | adding nothing to an account with balance 0, nonce 0 and no code deletes it at the end of the transaction; without that call it stays |
| `IndexedSlices.PutContents` | evm/types/statedb.go:893-908 | writing a key keeps slice and index map inverse to each other and changes that key alone |
| `IndexedSlices.RemoveContents` | evm/types/journal.go:197-224 | removing a key from the middle with left shift keeps slice and index inverse and removes that key alone |
| `IndexedSlices.ShiftLeft` | evm/types/journal.go:204-218 | the shifting loop moves every later slot one place left and reindexes it |
| `IndexedSlices.Remove` | evm/types/journal.go:319-345 | the removal with its special case for the last slot meets the specification of removal |
| `StateObjectCaches.StateObjectCache.constructor` | evm/types/state_object.go:81-102 | a new object holds empty caches |
| `StateObjectCaches.StateObjectCache.GetCommittedState` | evm/types/state_object.go:355-378 | the slice form of the cached load equals the one on maps |
| `StateObjectCaches.StateObjectCache.GetState` | evm/types/state_object.go:338-350 | the slice form of the read equals the one on maps |
| `StateObjectCaches.StateObjectCache.WriteDirty` | evm/types/state_object.go:130-141 | the slice form of setState updates exactly one dirty key |
| `StateObjectCaches.StateObjectCache.SetState` | evm/types/state_object.go:110-127 | a write of the current value changes nothing and asks for no journal entry; any other is journaled with the previous value |
| `StateObjectCaches.StateObjectCache.FlushEntry` | evm/types/state_object.go:243-268 | one iteration of the flush with its continue branches, on slices and stores |
| `StateObjectCaches.StateObjectCache.CommitState` | evm/types/state_object.go:238-272 | the whole loop equals commitState on maps and empties the dirty slice |
| `CommitStateDBs.AccessListTable.AddAddress` | evm/types/access_list.go:68-74 | in place, equals AddAddress on values |
| `CommitStateDBs.AccessListTable.AddSlot` | evm/types/access_list.go:81-105 | in place, equals AddSlot on values |
| `CommitStateDBs.AccessListTable.DeleteSlot` | evm/types/access_list.go:111-126 | in place, equals DeleteSlot on values; fails exactly where that panics |
| `CommitStateDBs.AccessListTable.DeleteAddress` | evm/types/access_list.go:132-134 | the address is gone, every other address keeps its slots, and it undoes AddAddress of a new address exactly |
| `CommitStateDBs.JournalLog.Append` | evm/types/journal.go:46-51 | in place, equals Append on values, the extra 0x03 mark included |
| `CommitStateDBs.JournalLog.AddDirty` | evm/types/journal.go:96-105 | in place, equals AddDirty on values |
| `CommitStateDBs.JournalLog.SubtractDirty` | evm/types/journal.go:109-119 | in place, equals SubtractDirty on values |
| `CommitStateDBs.JournalLog.DeleteDirty` | evm/types/journal.go:123-131 | in place, the left shift without reindexing |
| `CommitStateDBs.CommitStateDB.SetStateObject` | evm/types/statedb.go:893-908 | writes the slice and index; the live objects gain exactly that object |
| `CommitStateDBs.CommitStateDB.GetStateObject` | evm/types/statedb.go:867-891 | a live object or a load that fills the slice; deleted objects read as absent |
| `CommitStateDBs.CommitStateDB.CreateObject` | evm/types/statedb.go:840-856 | creates or replaces, and journals which |
| `CommitStateDBs.CommitStateDB.GetOrNewStateObject` | evm/types/statedb.go:829-836 | fetches, or creates when absent |
| `CommitStateDBs.CommitStateDB.SetBalance` | evm/types/statedb.go:186-191 | refines the specified operation, journal included |
| `CommitStateDBs.CommitStateDB.AddBalance` | evm/types/statedb.go:194-199 | refines the specified operation, and the journal then dirties exactly what it did before and the target when the amount is not zero or the account was missing or read balance 0, nonce 0 and no code |
| `CommitStateDBs.CommitStateDB.SubBalance` | evm/types/statedb.go:202-207 | refines the specified operation; fails exactly when the balance would go negative |
| `CommitStateDBs.CommitStateDB.SetNonce` | evm/types/statedb.go:210-215 | refines the specified operation, journal included |
| `CommitStateDBs.CommitStateDB.SetState` | evm/types/statedb.go:218-223 | refines the specified operation, journal included |
| `CommitStateDBs.CommitStateDB.SetCode` | evm/types/statedb.go:226-232 | refines the specified operation, journal included |
| `CommitStateDBs.CommitStateDB.CreateAccount` | evm/types/statedb.go:785-790 | replaces the account and carries the balance over |
| `CommitStateDBs.CommitStateDB.Suicide` | evm/types/statedb.go:695-711 | marks, zeroes the balance and journals both; false on a missing account |
| `CommitStateDBs.CommitStateDB.AddLog` | evm/types/statedb.go:253-263 | appends the log with its position and journals it |
| `CommitStateDBs.CommitStateDB.AddPreimage` | evm/types/statedb.go:266-276 | records a new preimage once |
| `CommitStateDBs.CommitStateDB.AddRefund` | evm/types/statedb.go:279-282 | journals and adds |
| `CommitStateDBs.CommitStateDB.SubRefund` | evm/types/statedb.go:286-293 | journals and subtracts; fails exactly on underflow |
| `CommitStateDBs.CommitStateDB.AddAddressToAccessList` | evm/types/statedb.go:296-300 | journals only a new address |
| `CommitStateDBs.CommitStateDB.AddSlotToAccessList` | evm/types/statedb.go:303-318 | journals only what is new, address before slot |
| `CommitStateDBs.CommitStateDB.Snapshot` | evm/types/statedb.go:630-643 | hands out a fresh id for the current journal length |
| `CommitStateDBs.CommitStateDB.SearchRevision` | evm/types/statedb.go:646-652 | binary search finds the first id not below the given one |
| `CommitStateDBs.CommitStateDB.RevertToSnapshot` | evm/types/statedb.go:646-661 | refines the specified revert; fails exactly where it panics |
| `CommitStateDBs.CommitStateDB.Finalise` | evm/types/statedb.go:539-574 | the loop over the dirty list equals Finalise on values |
| `CommitStateDBs.CommitStateDB.Commit` | evm/types/statedb.go:496-534 | both loops equal Commit on values, in slice order |
| `CommitStateDBs.CommitStateDB.UndoEntry` | evm/types/journal.go:197-374 | each revert method equals its specification |
| `CommitStateDBs.CommitStateDB.RevertJournal` | evm/types/journal.go:55-69 | the backward loop equals the specified revert |
| `StakingStore.WeightPositive` | staking/keeper/weight.go:16-27 | no positive amount of tokens has zero shares if and only if the weight is above one half of a unit |
| `StakingStore.WeighRounds` | staking/keeper/weight.go:16-27 | the shares differ from the product of tokens and weight by at most half a unit, and on a tie they are even |
| `StakingStore.RoundsUnique` | staking/keeper/weight.go:16-27 | which determines the shares |
| `StakingStore.WeighMonotone` | staking/keeper/weight.go:16-27 | more tokens never weigh less |
| `StakingStore.WeighExact` | staking/keeper/weight.go:16-27 | the shares are the exact product when that is a whole number of units |
| `StakingStore.PowerIs` | staking/types/validator_standardized.go:130-133 | the power is the quotient of the shares by the power reduction, rounded down |
| `ShareUpdates.ExistingMeans` | staking/keeper/proxy.go:151-172 | exactly the listed validators that exist are read, each once |
| `ShareUpdates.UpdateLoopSteady` | staking/keeper/proxy.go:72-87 | the loop on stale copies keeps every validator total and index key, gives the delegator its new shares on each listed validator and no other entry, and fails exactly on a destroyed validator |
| `ShareUpdates.UpdateSharesKeeps` | staking/keeper/proxy.go:53-94 | UpdateShares keeps the share invariant and fails exactly when a listed validator has been destroyed |
| `ShareMoves.AddLoopSteady` | staking/keeper/proxy.go:97-148 | adding shares gives the delegator exactly that amount on each target and the same amount to each total |
| `ShareMoves.WithdrawLoopSteady` | staking/keeper/proxy.go:111-137 | withdrawing takes exactly the shares of the delegator, and a validator removed with its last share carries no shares of anybody |
| `ShareMoves.AddSharesKeeps` | staking/handler_shares.go:161-210 | MsgAddShares moves the delegator to exactly the targets and keeps the share invariant |
| `Proxies.RebookKeeps` | staking/keeper/delegation.go:11-28 | a proxy total that follows the contribution of one delegator keeps totals, bindings and the ban on chained proxies |
| `Proxies.ProxyCovers` | staking/keeper/delegation.go:19-22 | a proxy total covers each delegator bound to it, so the negative-total error is unreachable |
| `Proxies.ClearedProxies` | staking/keeper/proxy.go:9-50 | clearing through the binding keys frees exactly the delegators bound to the proxy |
| `Proxies.UnregisterKeeps` | staking/handler_shares.go:139-143 | unregistering keeps totals and bindings |
| `ProxyMessages.UpdateProxyKeeps` | staking/keeper/delegation.go:11-28 | UpdateProxy fails exactly when the proxy lists a destroyed validator, and keeps the share invariant |
| `StakingMessages.UpdateSharesReleasing` | staking/keeper/proxy.go:53-94 | UpdateShares keeps the whole invariant and no status changes |
| `StakingMessages.DepositKeeps` | staking/keeper/delegation.go:31-66 | MsgDeposit keeps the whole invariant, whatever the weight of the week |
| `DelegatorMessages.UnbondKeeps` | staking/keeper/delegation.go:88-134 | the bonded pool always covers what is released; recording it moves the one time key and restores the invariant |
| `DelegatorMessages.WithdrawKeeps` | staking/keeper/delegation.go:69-137 | MsgWithdraw, in part or in full, bound or not, keeps the whole invariant |
| `DelegatorMessages.AddSharesInv` | staking/handler_shares.go:161-210 | MsgAddShares keeps the whole invariant |
| `ProxyMessages.UnbindKeeps` | staking/handler_shares.go:73-94 | MsgUnbindProxy keeps the whole invariant |
| `ProxyMessages.BindKeeps` | staking/handler_shares.go:11-71 | MsgBindProxy, also away from another proxy and with records read before unbinding, keeps the whole invariant |
| `ProxyMessages.RegProxyKeeps` | staking/handler_shares.go:104-126 | registering keeps the whole invariant |
| `ProxyMessages.UnregProxyKeeps` | staking/handler_shares.go:128-151 | unregistering keeps the whole invariant |
| `ValidatorMessages.CreateKeeps` | staking/handler.go:103-149 | MsgCreateValidator adds one unbonded validator with one share, and keeps the invariant if and only if no delegator with shares still lists the address |
| `ValidatorMessages.DestroyKeeps` | staking/keeper/min_self_delegation.go:11-73 | MsgDestroyValidator keeps the whole invariant and fails exactly when there is no self delegation, never for lack of shares or pool coins |
| `ValidatorMessages.JailKeeps` | staking/keeper/val_state_change.go:150-158 | jailing keeps the whole invariant; what it changes is in StakingFrames.JailExact |
| `ValidatorMessages.UnjailKeeps` | staking/keeper/val_state_change.go:161-169 | unjailing keeps the invariants if and only if the validator still has a self delegation |
| `ValidatorMessages.RemovedKeeps` | staking/keeper/validator.go:126-153 | removing an unbonded validator keeps index, bonded set, queue and abandoned list |
| `StakingFrames.JailExact` | staking/keeper/val_state_change.go:150-158 | jailing succeeds if and only if the validator exists and is not jailed; its record changes in being jailed alone, exactly its key leaves the power index, and nothing else in the store changes |
| `StakingFrames.UnjailExact` | staking/keeper/val_state_change.go:161-169 | unjailing succeeds if and only if the validator is jailed; its record changes in that alone, exactly the key of its shares comes into the power index, and nothing else in the store changes |
| `StakingFrames.JailedStaysOut` | staking/keeper/val_state_change.go:37-51 | a jailed validator is neither elected nor promoted: after an epoch it is not bonded, within one it is bonded only if it was and is not abandoned |
| `StakingFrames.MessageFrame` | staking/handler.go:14-42 | a message changes a record in its shares alone, but for the one destroyed, jailed or unjailed; a validator goes if and only if it is unbonded with neither a self delegation nor shares of a delegator left; last powers, total and queue stay, and the abandoned list grows exactly by a bonded validator that is destroyed |
| `StakingFrames.RunTidy` | staking/keeper/proxy.go:119-137 | over every run no unbonded validator without self delegation and shares is kept |
| `Elections.BondStep` | staking/keeper/val_state_change.go:172-191 | bonding takes a validator out of the unbonding queue, empty slices included, and leaves its index key |
| `Elections.UnbondStep` | staking/keeper/val_state_change.go:194-224 | unbonding queues a bonded validator once, at its completion time |
| `Elections.ElectAllBonds` | staking/keeper/val_state_change.go:52-87 | electing a list of validators bonds exactly them, records exactly their powers, adds up the total and keeps the updates an exact difference |
| `Elections.RetireAllRetires` | staking/keeper/val_state_change.go:93-106 | retiring a list of bonded validators never panics and removes exactly them |
| `EpochElections.ElectLoopFilters` | staking/keeper/val_state_change.go:37-87 | the loop with its early break elects what a filter over the whole ranking elects, and never meets a jailed or missing validator |
| `EpochElections.ElectedAreTop` | staking/keeper/val_state_change.go:35-51 | the elected are distinct, eligible and at most MaxValidators, and an eligible validator that is not elected lost against a full set whose every member outranks it |
| `EpochElections.ApplyElects` | staking/keeper/val_state_change.go:25-114 | ApplyAndReturnValidatorSetUpdates never panics; bonded are exactly the first MaxValidators eligible, the last powers are theirs, the total is their sum, and the updates are the exact difference |
| `KickOuts.PromoteLoopFilters` | staking/keeper/val_state.go:29-70 | the promotion loop promotes the first eligible validators outside the last set and never reaches its panics |
| `KickOuts.PromotedAreTop` | staking/keeper/val_state.go:29-70 | the promoted are the best eligible validators outside the last set, at most as many as are abandoned |
| `KickOuts.TopUnique` | staking/keeper/val_state_change.go:35-51 | being the best in that sense determines who they are |
| `KickOuts.DischargeRetires` | staking/keeper/val_state.go:73-98 | the discharge loop retires every abandoned validator and takes exactly their last powers off the total, without a panic |
| `KickOuts.KickOutReplaces` | staking/keeper/val_state.go:13-104 | for any distinct bonded addresses the kick-out never panics, keeps bonded equal to having a last power and the total equal to their sum, never enlarges the set, and returns the exact difference |
| `EndBlocks.EndOfSetKeeps` | staking/handler.go:45-64 | the change of the set succeeds and keeps the whole invariant. At the end of an epoch exactly the elected are bonded and the last powers are exactly their current ones; within one the abandoned leave and exactly the promoted come; otherwise nothing changes; the last total is the sum and the updates are the exact difference |
| `EndBlocks.UnbondAllMatureKeeps` | staking/keeper/validator.go:290-320 | maturing never panics (hooks are in Chain), unbonds exactly the validators whose time has come, removes exactly those with nothing left, and leaves no mature slice |
| `EndBlocks.CompleteLoopPays` | staking/handler.go:69-87 | every undelegation with a key in the list is paid once in full and forgotten; the pool always covers it |
| `EndBlocks.EndBlockKeeps` | staking/handler.go:45-90 | EndBlocker never panics (hooks are in Chain) and keeps the whole invariant. Afterwards bonded are exactly the elected at the end of an epoch, and within one those bonded before but the abandoned, and the promoted; last powers and total are exactly theirs; every record is as before but for that change and for maturing; the updates lead from the old to the new last powers; afterwards no undelegation at or before the block time remains and each was paid once in full |
| `StakingRuns.MessageKeeps` | staking/handler.go:14-42 | a message that succeeds keeps the invariant if and only if it is sound (unjailing with a self delegation, creating at an address no delegator with shares lists); none changes a status, and only creation adds a validator |
| `StakingRuns.RunKeeps` | staking/handler.go:14-90 | over every run of sound messages and end-blocks, at any weights, the invariant holds and no end-block panics |
| `StakingRuns.GenesisInv` | staking/keeper/invariants.go:13-23 | the empty store satisfies the invariant |
| `StakingRuns.InvRegistered` | staking/keeper/invariants.go:27-162 | the invariant implies the four registered ones |
| `StakingRuns.ReachableRegistered` | staking/keeper/invariants.go:13-162 | in every state reachable from the empty store the four registered invariants hold |
| `StakingRuns.InvDelegator` | staking/keeper/invariants.go:25-58 | each delegator has its recorded shares on every listed validator that exists and none elsewhere, its proxy is a proxy that is not itself bound, and its total is what is bound to it |
| `StakingRuns.SetTransitions` | staking/keeper/val_state_change.go:118-147 | set changes follow Unbonded to Bonded, Bonded to Unbonding, Unbonding to Bonded |
| `StakingRuns.MatureTransitions` | staking/keeper/val_state_change.go:142-147 | maturing changes no status but unbonding to unbonded, and removes only validators with nothing left |
| `StakingMeanings.DepositMeans` | staking/keeper/delegation.go:31-66 | a deposit moves exactly the amount from the balance to the tokens of its sender and shows on no other account |
| `StakingMeanings.WithdrawMeans` | staking/keeper/delegation.go:69-137 | a withdrawal moves exactly the amount from tokens to the undelegation, restarts its time, and in full clears list and proxy |
| `StakingMeanings.AddSharesMeans` | staking/handler_shares.go:161-210 | only the list of the sender changes, to exactly the targets |
| `StakingMeanings.BindMeans` | staking/handler_shares.go:11-71 | only the proxy of the sender changes, also when it was bound elsewhere |
| `StakingMeanings.UnbindMeans` | staking/handler_shares.go:73-94 | only the proxy of the sender changes |
| `StakingMeanings.RegProxyMeans` | staking/handler_shares.go:104-126 | only the registration of the sender changes |
| `StakingMeanings.UnregProxyMeans` | staking/handler_shares.go:128-151 | the sender is no longer a proxy and exactly the delegators bound to it are free |
| `StakingMeanings.CreateMeans` | staking/handler.go:103-149 | the self delegation is paid from the balance of the sender |
| `StakingMeanings.DestroyMeans` | staking/keeper/min_self_delegation.go:11-73 | the self delegation moves to the undelegation of the sender |
| `StakingMeanings.MessageMeans` | staking/handler.go:14-42 | every message that succeeds changes what each account shows (stake, self delegation, undelegation, balance) exactly as its reference meaning says |
| `StakingMeanings.MessageConserves` | staking/handler.go:14-42 | no message creates or loses a coin of accounts and pools together |
| `StakingMeanings.EndBlockConserves` | staking/handler.go:45-90 | no end-block creates or loses a coin |
| `StakingMeanings.RunConserves` | staking/handler.go:14-90 | over every run of messages and end-blocks the coins of accounts and pools are conserved |
| `StakingLive.WeighedIsBacking` | staking/keeper/delegation.go:11-66 | the tokens a message weighs are what backs the delegator afterwards: its own and those bound to it |
| `StakingLive.MessageRefreshes` | staking/keeper/proxy.go:53-94 | exactly the delegators a message weighs get the product of backing and weight, rounded half to even, or keep their shares when no listed validator exists; no other shares change |
| `StakingLive.MessageIdle` | staking/keeper/proxy.go:119-137 | a message never removes a validator that a delegator with shares lists afterwards |
| `StakingLive.MessageLive` | staking/keeper/proxy.go:53-148 | whoever lists validators has shares and all of them exist: kept by a message if and only if its weighings give shares |
| `StakingLive.EndBlockLive` | staking/keeper/validator.go:290-320 | an end-block removes only validators nobody with a list has shares on |
| `StakingLive.LiveRun` | staking/handler.go:14-90 | over every run with positive weighings, with no condition on creations, the invariant holds, no end-block panics, and every listed validator exists and carries the shares of its delegator |
| `StakingLive.HeavyWeeks` | staking/keeper/weight.go:16-27 | from week 27 on every weighing is positive |
| `StakingWitness.RegisteredFails` | staking/keeper/invariants.go:27-58 | nine messages that all succeed, in week 26 from the empty store, after which the registered delegator-add-shares invariant is false |
| `StakingWeights.UpdateSharesWeighs` | staking/keeper/proxy.go:53-94 | the shares become the product of own and delegated tokens and the weight, rounded half to even, or stay when no listed validator exists; no other record changes |
| `StakingWeights.DepositRefreshes` | staking/keeper/delegation.go:54-65 | a deposit refreshes the shares of the sender or its proxy, and only those |
| `StakingWeights.DepositFails` | staking/keeper/delegation.go:31-66 | a deposit fails if and only if it is below the minimum, beyond the balance, or the delegator whose shares change lists a destroyed validator |
| `StakingWeights.WithdrawFails` | staking/keeper/delegation.go:69-137 | a withdrawal fails if and only if one of its guards holds or the shares to update are on a destroyed validator; leaving in full without a proxy never fails for that |
| `StakingWeights.WithdrawRefreshes` | staking/keeper/delegation.go:91-117 | a withdrawal refreshes the shares of the sender or its proxy, and only those |
| `StakingWeights.AddSharesFails` | staking/handler_shares.go:161-236 | adding shares fails if and only if targets or delegator are unfit, judged before any share is withdrawn; otherwise it gives fresh shares |
| `StakingWeights.UpdateProxyRefreshes` | staking/keeper/delegation.go:11-28 | the proxy gets fresh shares for its new total and no other record changes |
| `StakingWeights.UnbindRefreshes` | staking/handler_shares.go:73-94 | unbinding refreshes the old proxy, and only it |
| `StakingWeights.BindRefreshes` | staking/handler_shares.go:11-71 | binding refreshes the new proxy and the old one, and nobody else |
| `StakingWeights.RegisterRefreshes` | staking/handler_shares.go:104-126 | registering refreshes the proxy, and only it |
| `StakingWeights.UnregisterRefreshes` | staking/handler_shares.go:128-151 | unregistering refreshes the proxy, and only it |
| `StakingRefusals.UnbindFails` | staking/handler_shares.go:73-94 | unbinding fails if and only if there is no proxy or the proxy lists a destroyed validator |
| `StakingRefusals.RegisterFails` | staking/handler_shares.go:104-151 | registering fails if and only if the account has no tokens, is a proxy, is bound or lists a destroyed validator; unregistering if and only if it is no proxy or lists one |
| `StakingRefusals.BindFails` | staking/handler_shares.go:11-71 | binding fails if and only if the two accounts are unfit, or the new proxy or another one to be left lists a destroyed validator |
| `StakingRefusals.CreateFails` | staking/handler.go:103-149 | creating fails if and only if the validator exists, the self delegation is below 500 or the balance does not cover it |
| `StakingRefusals.MessageFails` | staking/handler.go:14-42 | each of the ten messages fails if and only if it is refused, a condition on the store before it |
| `PowerRank.RankKeyOrder` | staking/types/keys.go:94-117 | byte order of the index keys read backwards is higher power first, then lower address |
| `PowerRank.RankKeyInjective` | staking/types/keys.go:94-117 | different power and operator give different keys |
| `PowerRank.PowerRankKey` | staking/types/keys.go:96-117 | the byte-filling method produces that key |
| `StakingKeepers.Keeper.UpdateShares` | staking/keeper/proxy.go:53-94 | the loop over stored records equals the function on stores; fails exactly where it does |
| `StakingKeepers.Keeper.GetExisting` | staking/keeper/proxy.go:151-172 | the loop collects exactly the listed validators that exist, in order |
| `StakingKeepers.Keeper.WithdrawShares` | staking/keeper/proxy.go:119-137 | step by step equals the function, removal included |
| `StakingKeepers.Keeper.WithdrawLastShares` | staking/keeper/proxy.go:111-117 | the loop equals the function |
| `StakingKeepers.Keeper.AddSharesToValidators` | staking/keeper/proxy.go:97-108 | the loop equals the function |
| `StakingKeepers.Keeper.CheckTargets` | staking/handler_shares.go:213-236 | true exactly when every target exists and has a self delegation |
| `StakingKeepers.Keeper.AddShares` | staking/handler_shares.go:161-210 | the handler equals the function |
| `StakingKeepers.Keeper.UpdateProxy` | staking/keeper/delegation.go:11-28 | equals the function; fails exactly where it does |
| `StakingKeepers.Keeper.Delegate` | staking/keeper/delegation.go:31-66 | equals the function; fails exactly where it does |
| `StakingKeepers.Keeper.WithdrawTokens` | staking/keeper/delegation.go:69-137 | equals the function, fails exactly where it does, and keeps the store valid |
| `StakingKeepers.Keeper.RecordUndelegation` | staking/keeper/delegation.go:120-134 | moves the coins, adds up the record and replaces its time key |
| `StakingKeepers.Keeper.UnbindProxy` | staking/handler_shares.go:73-94 | equals the function; fails exactly where it does |
| `StakingKeepers.Keeper.BindProxy` | staking/handler_shares.go:11-71 | equals the function; fails exactly where it does |
| `StakingKeepers.Keeper.RegisterProxy` | staking/handler_shares.go:104-126 | equals the function; fails exactly where it does |
| `StakingKeepers.Keeper.FreeDelegators` | staking/keeper/proxy.go:9-50 | the deleting iteration frees exactly the delegators with a binding key |
| `StakingKeepers.Keeper.UnregisterProxy` | staking/handler_shares.go:128-151 | equals the function; fails exactly where it does |
| `StakingKeepers.Keeper.Create` | staking/handler.go:103-149 | equals the function; fails exactly where it does |
| `StakingKeepers.Keeper.Destroy` | staking/keeper/min_self_delegation.go:11-73 | equals the function; fails exactly where it does |
| `StakingKeepers.Keeper.JailValidator` | staking/keeper/val_state_change.go:150-158 | succeeds exactly on an unjailed validator; on a valid store the record changes in being jailed alone, exactly its key leaves the power index, and nothing else changes |
| `StakingKeepers.Keeper.UnjailValidator` | staking/keeper/val_state_change.go:161-169 | succeeds exactly on a jailed validator; on a valid store the record changes in that alone, exactly its key comes into the power index, and nothing else changes |
| `StakingKeepers.Keeper.Remove` | staking/keeper/validator.go:126-153 | removes record and index key |
| `StakingKeepers.Keeper.DeleteFromQueue` | staking/keeper/validator.go:268-281 | the filtering loop, deleting an emptied slice |
| `StakingKeepers.Keeper.Bond` | staking/keeper/val_state_change.go:172-191 | equals the transition on stores |
| `StakingKeepers.Keeper.StartUnbonding` | staking/keeper/val_state_change.go:194-224 | equals the transition on stores |
| `StakingKeepers.Keeper.ElectAll` | staking/keeper/val_state_change.go:27-87 | the election loop with break and continue equals the recursive one |
| `StakingKeepers.Keeper.ApplyAndReturnUpdates` | staking/keeper/val_state_change.go:25-114 | equals the function; panics exactly where it does |
| `StakingKeepers.Keeper.PromoteAll` | staking/keeper/val_state.go:29-70 | the promotion loop equals the recursive one |
| `StakingKeepers.Keeper.KickOutAndReturnUpdates` | staking/keeper/val_state.go:13-104 | equals the function; panics exactly where it does |
| `StakingKeepers.Keeper.UnbondSlice` | staking/keeper/validator.go:299-316 | the inner maturing loop equals the recursive one |
| `StakingKeepers.Keeper.UnbondAllMatureQueue` | staking/keeper/validator.go:290-320 | equals the function; panics exactly where it does |
| `StakingKeepers.Keeper.CompleteUndelegation` | staking/keeper/delegation.go:164-179 | pays and forgets, or leaves the record on an error |
| `StakingKeepers.Keeper.EndBlocker` | staking/handler.go:45-90 | equals the function; on a valid store it never panics, keeps it valid, bonds exactly the elected at the end of an epoch or replaces the abandoned by the promoted within one, pays what is due and returns the exact difference |
| `StakingKeepers.Keeper.DeliverMessage` | staking/handler.go:14-42 | a message is applied whole or, on failure, not at all; on a valid store it fails exactly when refused, changes validator records and the set as MessageFrame says, and a sound one keeps the store valid |
| `Conservation.RemainingAmounts` | distribution/keeper/allocation.go:83-147 | no subtraction in either allocation loop goes negative, and what remains is exactly what was not handed out |
| `Conservation.EqualTotal` | distribution/keeper/allocation.go:97-108 | equal truncated fractions add up to at most one |
| `Conservation.ShareTotalBounds` | distribution/keeper/allocation.go:128-141 | fractions by share add up to at most one and miss it by less than one unit per validator |
| `Conservation.CreditAllAt` | distribution/keeper/allocation.go:100-108 | each validator is credited its truncated fraction and no other record changes |
| `Conservation.EqualConserves` | distribution/keeper/allocation.go:83-111 | rewards plus remainder equal the input, per denomination; it panics exactly when no voter is known and unjailed |
| `Conservation.SharesConserve` | distribution/keeper/allocation.go:113-147 | rewards plus remainder equal the input, per denomination; it panics exactly when the unjailed validators have no shares |
| `Conservation.ShareLeftover` | distribution/keeper/allocation.go:113-147 | the leftover by shares is bounded by the number of validators times the truncation errors |
| `DistributionRuns.AllocatePanics` | distribution/keeper/allocation.go:22-81 | AllocateTokens panics exactly on the two divisions by zero |
| `DistributionRuns.AllocatedExactly` | distribution/keeper/allocation.go:22-81 | commissions and community pool together grow by exactly the collected fees |
| `DistributionRuns.AllocatedReward` | distribution/keeper/allocation.go:22-147 | every commission grows by exactly its equal part plus its part by shares |
| `DistributionRuns.CreateKeeps` | distribution/keeper/hooks.go:21-24 | creating a validator never overwrites a nonzero commission |
| `DistributionRuns.WithdrawKeeps` | distribution/keeper/keeper.go:82-109 | withdrawing keeps the module account backed and conserves coins; who is paid what is in Payments.WithdrawPays |
| `DistributionRuns.RemoveKeeps` | distribution/keeper/hooks.go:27-52 | removal keeps the module account backed and conserves coins; who is paid what is in Payments.RemovePays |
| `DistributionRuns.SpendKeeps` | distribution/keeper/proposal_handler.go:30-49 | a pool spend keeps the module account backed and conserves coins; who is paid what is in Payments.SpendPays |
| `DistributionRuns.RunKeeps` | distribution/keeper/invariants.go:73-89 | over every run the module account equals community pool plus commissions, and coins are neither created nor lost |
| `DistributionRuns.GenesisInv` | distribution/keeper/invariants.go:73-89 | an empty distribution state satisfies the invariant |
| `Payments.SendPays` | distribution/keeper/keeper.go:95-98 | sending succeeds if and only if the module account covers it and the bank accepts; the recipient gains exactly the amount, every other account nothing |
| `Payments.WithdrawPays` | distribution/keeper/keeper.go:82-109 | a withdrawal succeeds if and only if there is a commission and, if it has a whole coin, the bank accepts; per denomination the withdraw address gains exactly the whole coins, every other account nothing, the validator keeps exactly the fraction, and every other commission and the pool stay |
| `Payments.RemovePays` | distribution/keeper/hooks.go:27-52 | removal fails if and only if the bank refuses a commission with a whole coin; the withdraw address gains exactly the whole coins, the pool exactly the fractions, and only that record goes |
| `Payments.SpendPays` | distribution/keeper/proposal_handler.go:30-49 | a pool spend succeeds if and only if the pool covers it and the bank accepts; the recipient gains exactly the amount, every other account nothing, and the pool loses it |
| `Payments.ProposalFails` | distribution/keeper/proposal_handler.go:13-26 | a spend proposal fails if and only if the recipient is blacklisted, the pool does not cover it or the bank refuses |
| `Payments.AllocatePays` | distribution/keeper/allocation.go:22-81 | an allocation with voting power raises every commission by exactly its reward and, if the bank accepts, pays the old pool and all fees not rewarded to the community address alone; otherwise they stay in the pool |
| `Payments.AllocateIdles` | distribution/keeper/allocation.go:22-45 | without fees nothing changes; without voting power exactly the fees go to the pool |
| `Payments.RunPays` | distribution/keeper/keeper.go:82-109 | over every run each account gains, per denomination, exactly what the steps pay it by their reference meaning |
| `Chain.HookedKeeps` | distribution/keeper/hooks.go:21-52 | the hooks of a staking step fail if and only if the bank refuses a non-empty payout of a removed validator; otherwise commission records sit on exactly the existing validators, the books balance and coins are conserved |
| `Chain.HookedPays` | distribution/keeper/hooks.go:27-52 | the hooks of a staking step pay each account exactly the whole coins of the removed validators whose withdraw address it is, and leave exactly their fractions to the pool |
| `Chain.SharesDivide` | distribution/keeper/allocation.go:113-147 | under the staking invariant the unjailed validators always have shares, so the division by their total is safe |
| `Chain.FeesKeep` | distribution/keeper/allocation.go:22-81 | with staking, an allocation panics if and only if there is something to allocate and no voter is known and unjailed |
| `Chain.StepKeeps` | staking/handler.go:45-90 | a step of the two modules together halts the chain exactly on a refused payout at the end of a block or an allocation without voters, and otherwise keeps both invariants, with the staking store that staking alone reaches unless a refused payout rolls a message back |
| `Chain.RunKeeps` | staking/keeper/validator.go:126-153 | over every run of the two modules together both invariants hold and commission records sit on exactly the existing validators |
| `Chain.GenesisInv` | staking/keeper/invariants.go:13-23 | the two modules satisfy the invariant before the first message |
| `DistributionKeepers.Keeper.PayOut` | distribution/keeper/allocation.go:100-108 | the paying loop equals crediting all fractions |
| `DistributionKeepers.Keeper.AllocateByEqual` | distribution/keeper/allocation.go:83-111 | equals the function; fails exactly where it panics |
| `DistributionKeepers.Keeper.AllocateByShares` | distribution/keeper/allocation.go:113-147 | equals the function; fails exactly where it panics |
| `DistributionKeepers.Keeper.AllocateTokens` | distribution/keeper/allocation.go:22-81 | equals the function, fails exactly where it panics, keeps the books balanced, rewards each validator and pays the community address alone |
| `DistributionKeepers.Keeper.WithdrawValidatorCommission` | distribution/keeper/keeper.go:82-109 | equals the function; exactly the whole coins go to the withdraw address, the fractions stay, no other account or commission changes |
| `DistributionKeepers.Keeper.AfterValidatorCreated` | distribution/keeper/hooks.go:21-24 | opens an empty record, changes no commission of any validator, and keeps the books balanced when the validator is new |
| `DistributionKeepers.Keeper.AfterValidatorRemoved` | distribution/keeper/hooks.go:27-52 | equals the function; exactly the whole coins go to the withdraw address, the fractions to the pool, and only that record goes |
| `DistributionKeepers.Keeper.DistributeFromFeePool` | distribution/keeper/proposal_handler.go:30-49 | succeeds exactly when the pool covers the amount and the bank accepts; exactly the recipient gains it and the pool loses it |
| `DistributionKeepers.Keeper.SendFromModule` | distribution/keeper/keeper.go:95-98 | equals the function; exactly the recipient gains the amount |

## Left out

- State objects are values inside `CommitStateDB`: pointers shared between the slice, the index and callers are not modelled; `StateObjectCache` shows the object updated in place on its own.
- The code cache, the `dbErr` field, account numbers and the `dirtyCode` flag are not part of the restored state.
- `Prepare`, `Reset`, `UpdateAccounts`, `ClearStateObjects` and `deepCopy` are not modelled: they run outside a snapshot's scope.
- EVM execution, bloom filters, RLP, signature recovery, the ante chain and gas refunds are not modelled.
- Amino and JSON codecs, bech32 and the decode cache of validators are not modelled: a stored record reads back as itself.
- The consensus public key index is not modelled; updates name operators, and one operator has one key.
- Powers are unbounded integers in the staking store; `PowerRank` states the byte order for powers below 2^64.
- The floating-point formatting of the weekly weight is not modelled: the decimal weight is a parameter of the block.
- `MsgEditValidator`, descriptions, commission rates and the check of public key types are not modelled: they touch nothing the invariants speak of.
- The slashing module is not part of this model; Jail and Unjail are steps of the run, and its hooks are left out.
- Epoch bookkeeping is a parameter that says whether a block ends an epoch.
- `SetWithdrawAddr` is not modelled: the withdraw addresses are any map, and an unset one is the validator's own.
- Bank, supply and account keepers are maps with transfers that fail for lack of coins; whether the bank accepts a recipient is a parameter.
- The coins of staking and of distribution are separate ledgers: a payout of distribution does not show in the balances staking bonds from.
- Snapshots.RevertRestores: leaves the dirty list after touches of 0x03 to Snapshots.RevertIffSafe.
- `app/rpc`, `client`, queriers, genesis import and export, the token and params modules are not modelled.
