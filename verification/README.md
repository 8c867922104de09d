# Verified model of the chain indexer

`sync-state` follows a blockchain: it pulls blocks, orders their events, posts ledger rows,
keeps cached projections and survives replays, retries and interleavings. This project models
its core in Dafny and proves what every run of it keeps. Statements of SQL are modelled as the
update of a map, set or sequence that they denote; tables and buffers that the program changes
in place are fields of classes, and each of their methods is proved against a function on values
about which the lemmas speak.

| files | part of the program |
|---|---|
| `Positions`, `Protocol`, `Identifiers`, `Decimal`, `LedgerRows` | shared vocabulary: event positions, the upgrade, object identifiers, decimal text, ledger rows and their identity |
| `EventOrder` | execution order of a block's events |
| `Economy` | diversity, commission and stake-cap rows under sets, resets and redelivery |
| `FirstPass` | a first pass against the replay guards |
| `Infusion`, `InfusionReconcile`, `ReconcileMeanings` | infusion rows, their ledger legs, adoption of positions without a phase |
| `Coins`, `Correlation`, `Postings`, `Bank` | coin text, cross-event correlation, what a block posts (the specification), the engine that posts it |
| `BankIdentities`, `Conservation`, `LedgerEffects`, `Meanings`, `StakingLedger` | row identities, conservation of stake, what operations do to balances, the same read off an event's own attributes, reading stake back by denomination |
| `StakingChanges`, `NativeChanges`, `NativeMeanings` | which accounts a block invalidates |
| `NativeEvidence`, `NativeInvalidate`, `NativeCoherence` | the evidence cache and its coherence with the chain |
| `NativeSnapshot`, `NativeFetch`, `FetchMeanings`, `NativePublish` | querying one address, splitting its totals over validators, publishing the result |
| `Inventory`, `Projection`, `Displacement`, `InventoryStore` | ledger flush, ownership, incremental against full recomputation, and when an owner goes stale |
| `ParallelFetch`, `Ingest`, `IngestSafety`, `IngestProgress`, `IngestRepeats`, `IngestTurns` | fetch workers, the ingest loop and the coverage record |
| `RawMirror`, `Genesis`, `PlanetSequence` | raw event mirror, genesis credits, per-planet numbering |

## Findings

* **Every ownership event can leave another owner's inventory stale.** The address and association
  handlers mark the players of the association they overwrite and write, the vault handler marks
  its own owner; none looks into the other table. The comment above the window recompute
  (`sync/bulkwindow.go:100-103`) says that recomputing the union of the marks once gives the rows of
  a recompute per block. `Projection.WindowEqualsPerBlock`, `Projection.WindowIsExact` and
  `Projection.PerBlockIsExact` state exactly when the schedules agree and when each is exact, for all
  windows; `Displacement.EventIsExact` does so for one event. They always are when no address is in
  both tables and no two vaults share one (`Projection.SeparateWindowIsExact`). Concrete inputs for
  which they are not: `Displacement.VaultDisplacesPlayer`, `Displacement.PlayerDisplacesVault` and
  `Displacement.SchedulesDiffer`. Address balances are exact in any case (`Projection.LiquidIsExact`).
* **Nested denominations share a family.** The coin grammar admits denominations that end in
  `.infused` or `.defusing`. Conservation holds for the rows of each coin; a reader that selects
  rows by denomination gets exactly these rows if and only if no staking event carries a coin
  whose family overlaps (`StakingLedger.FamilyIsItsOwn`), and these then balance
  (`StakingLedger.StoredBalances`); `StakingLedger.NestedBlockUnbalances` is an accepted block for
  which they do not.
* **A streamed height can be committed twice.** Gap-freedom does not depend on reading the cursor
  again after a failure; committing each height once does. It holds iff no committing turn starts
  at or below the cursor (`IngestRepeats.ExactlyOnceIff`), and the turns that bring the loop there
  are exactly the streamed ones that commit something, fail for a while and lose that reading
  (`IngestRepeats.TurnLosesPlace`; `IngestSafety.LostRereadRepeats` is such a run). Past the upgrade
  height the coverage record allows at most an immediate repetition of the last height.
* **Distinct heights make batching safe.** The raw mirror's writers replace all rows of a height,
  so a height met twice inside one batch would keep both sets (`RawMirror.RepeatedHeightDiffers`);
  the heights of a window are distinct, and then batching cannot be observed.
* **Genesis credits need consistent shares.** Credits stay within a validator's tokens when the
  delegations' shares sum to at most its shares, and exceed them once the delegations are worth a
  unit each more (`Genesis.ExcessIsCredited`, `Genesis.ExcessSharesOverrun`).

## Assumptions about the environment

* Evidence cache: the truth is an arbitrary function from address and height to a claim. Each
  block's changes name every address whose truth moved, or a validator to which it was exposed
  just before the block, or all exposed addresses (`NativeCoherence.Honest`). A reading may be
  arbitrarily late but was true at the height it was made for. Evidence is complete when its
  source height has reached the required height; a row still needs work when evidence, receipts or
  positions are missing, which is how the model reads the generated `pending` column, whose
  definition is in a schema that is not part of this model.
* Ownership: the `asset_owner` view is an arbitrary function of an address's own association and
  vault rows whose answer is one of the owners these rows name, and has an identifier
  (`Inventory.Faithful`).
* Ingest: no replay is configured, the outcome of a commit is known, and the configuration loader
  has normalised the window, batch and parallelism settings to at least one.
* A transaction is atomic; handler savepoints are modelled as updates that happen or do not.
* Lists of statuses, tips, fetch and commit outcomes, the reading of chain timestamps (`clock`)
  and block hashes are parameters, quantified over in the theorems.

## Model

| member | source | states |
|---|---|---|
| `NativeCoherence.CompleteEvidenceIsTrue` | sync-state/internal/staking/store.go:27-188 | Main result. In every run that starts from empty tables and interleaves block commits, late requests, publications of truthful readings made at any earlier height, and retries, an address whose evidence has reached its required height stores exactly the totals, positions and exposure that are true at the current cursor |
| `NativeCoherence.RunKeeps` | sync-state/internal/staking/store.go:27-188 | The coherence invariant (exact rows at their source height, every later move noted by a requirement or a watermark, complete evidence still current) holds after every legal run |
| `NativeCoherence.CommitKeeps` | sync-state/internal/staking/store.go:27-98 | Committing one block whose changes reach every address that moved keeps the invariant at the new cursor |
| `NativeCoherence.PublicationKeeps` | sync-state/internal/staking/store.go:135-177 | Publishing a reading that was true at its own, possibly much older, height keeps the invariant, whether it is accepted or refused |
| `NativeCoherence.AcceptedIsCurrent` | sync-state/internal/staking/store.go:135-177 | A reading that passes the publishing guard is still true at every height from its own up to the cursor |
| `NativeCoherence.GuardSeesNotes` | sync-state/internal/staking/store.go:135-177 | The guard refuses a reading as soon as a move above its height is noted for the address, for all exposed addresses, or for a validator of the claim |
| `NativeCoherence.GuardIsExact` | sync-state/internal/staking/store.go:135-177 | A reading of a known row is accepted iff no note above its height concerns it and it is newer than, or completes, what is stored |
| `NativeCoherence.MovedIsAffected` | sync-state/internal/staking/store.go:27-76 | An address with complete evidence whose truth moves in the next block is always among the rows that block invalidates, because the exposure stored for it is exact |
| `NativeCoherence.CursorReadingIsAccepted` | sync-state/internal/staking/store.go:104-177 | A reading at the cursor height of a row that is still missing evidence is always accepted, settles the row, and makes the tables hold the truth when the reading is truthful |
| `NativeCoherence.UnsettledIsSelectable` | sync-state/internal/staking/store.go:104-128 | After any run a row that needs evidence is offered to the worker iff the cursor is at the tip and no retry delay is pending on it |
| `NativeCoherence.CandidatesAreCovered` | sync-state/internal/staking/invalidate.go:55-77 | After any run that ends in a block, every candidate and every address the block names has a row, and that row holds the truth or is wanted from the worker; evidence counts as current iff the tip is at most one block ahead |
| `NativeCoherence.OldRequestsAreHarmless` | sync-state/internal/staking/store.go:27-76 | A request for an already indexed height leaves complete newer evidence complete, leaves other rows alone, and a requirement that rises cancels the delay |
| `NativeCoherence.RetryNeverDelaysNewer` | sync-state/internal/staking/store.go:181-188 | A retry for an older attempt that arrives after a newer invalidation changes nothing |
| `NativeCoherence.Combine` | sync-state/internal/staking/invalidate.go:15-50 | Merging the dirty marks adds exactly the marked addresses and the operators of the marked reactors, widens to all exposed addresses iff asked to, at the upgrade block, or for a reactor without operator, and keeps every change list that reached all moved addresses doing so |
| `NativeInvalidate.Invalidate` | sync-state/internal/staking/invalidate.go:15-77 | Fails without a trace iff the height is zero or some address or validator is malformed. Otherwise every owned address that is dirty, was raised or has a dirty owner has a row, a row the changes concern requires at least the height, a new row has no source and requires exactly the height, every other row is unchanged, and exactly the raised addresses are marked; the changes used reach every address the given ones reached |
| `NativeCoherence.AddReactors` | sync-state/internal/staking/invalidate.go:24-50 | Every reactor whose operator is known contributes that validator; one unknown operator invalidates all exposed addresses |
| `NativeEvidence.UniqueAddresses` | sync-state/internal/staking/store.go:190-204 | Fails iff some value is not an address of the prefix; otherwise returns exactly the distinct values |
| `NativeEvidence.Store.Request` | sync-state/internal/staking/store.go:27-76 | Validates all names before anything is written; afterwards the named and exposed addresses have rows required at the height or above, with unchanged evidence and, where the requirement rose, no delay; watermarks rise for what the changes name, everything else stays; returns exactly the addresses whose requirement rose |
| `NativeEvidence.Store.EnsureCandidates` | sync-state/internal/staking/store.go:81-98 | Every given address has a row; a row that is new has no source and requires the height, every other row is unchanged; a height of zero or a malformed address is an error that changes nothing |
| `NativeEvidence.Store.Publish` | sync-state/internal/staking/store.go:146-177 | Accepts iff the guard admits the reading; totals, exposure and positions are then replaced together, otherwise nothing changes |
| `NativePublish.PublishSnapshot` | sync-state/internal/staking/store.go:135-177 | A malformed snapshot (height, address, totals, validator names, or totals that do not add up) is an error and touches nothing; a well-formed one is accepted iff the guard admits its claim, and is then installed as a whole |
| `NativePublish.FetchedIsWellFormed` | sync-state/internal/staking/snapshot.go:98-222 | A snapshot built by an accepted query is never malformed |
| `NativeEvidence.Store.RetryLater` | sync-state/internal/staking/store.go:181-188 | Delays only a row whose requirement is not above the attempted height |
| `NativeEvidence.Store.FlushReceipts` | sync-state/internal/buffers/buffer.go:412-448 | Each delegator of a newly stored maturing entry has a row with receipts pending, required at the height or above and not delayed; no other row changes |
| `NativeEvidence.Store.Pending` | sync-state/internal/staking/store.go:112-128 | A limit outside 1 to 1000 is an error; otherwise offers at most the limit, only selectable rows, all of them when the limit is not reached, each at the cursor height |
| `NativeSnapshot.PositionTotals` | sync-state/internal/staking/positions.go:21-58 | Succeeds iff the snapshot is divisible (natural balances, no validator with two delegations, recorded totals that add up) and then yields one strictly ascending entry per holding validator with the stake of that validator alone |
| `NativeSnapshot.SplitSumsToTotals` | sync-state/internal/staking/positions.go:21-58 | The bonded, unbonding and entry counts over the split sum to the totals and the number of entries of the whole address |
| `NativeSnapshot.GroupingKeepsTotal` | sync-state/internal/staking/positions.go:21-58 | Grouping amounts over distinct validators neither loses nor repeats any amount |
| `NativeSnapshot.SortedNames` | sync-state/internal/staking/positions.go:36-58 | Sorting the validator names gives each name once, strictly ascending |
| `NativeFetch.Fetch` | sync-state/internal/staking/snapshot.go:98-222 | Returns a snapshot iff the whole query is acceptable: well-formed rows of this address, no repeated pair or entry identifier, within pair and entry limits; otherwise nothing |
| `NativeFetch.ReadDelegations` | sync-state/internal/staking/snapshot.go:112-144 | Succeeds iff every delegation fits, no validator repeats and the pair limit holds; the running total is the sum of the balances |
| `NativeFetch.ReadUnbondings` | sync-state/internal/staking/snapshot.go:145-177 | Succeeds iff all unbonding rows pass after the pairs already taken; the running total is the sum of the maturing balances |
| `NativeFetch.ReadRedelegations` | sync-state/internal/staking/snapshot.go:178-219 | Succeeds iff all redelegation rows pass after the pairs and identifiers already taken |
| `NativeFetch.Budget.Entry` | sync-state/internal/staking/snapshot.go:319-332 | Admits an entry iff the limit holds and its identifier is new; identifier zero repeats freely |
| `NativeFetch.Budget.Pair` | sync-state/internal/staking/snapshot.go:308-317 | Admits a pair iff it is new and the limit holds |
| `NativeFetch.KeyTextIsInjective` | sync-state/internal/staking/snapshot.go:301-317 | The texts under which pairs are filed collide only for the same pair, because no valid operator address holds a slash |
| `NativeFetch.FetchedSnapshotDivides` | sync-state/internal/staking/positions.go:21-58 | A snapshot built by an accepted query is always divisible, so splitting it never fails |
| `NativeFetch.ClaimOf` | sync-state/internal/staking/store.go:135-177 | The published claim has the totals of the snapshot, one position per holder, and every validator of a delegation, unbonding or either side of a redelegation as exposure |
| `FetchMeanings.QueryMeans` | sync-state/internal/staking/snapshot.go:98-222 | A query of acceptable rows yields a snapshot iff no delegation, unbonding or move is listed twice, no entry identifier repeats, and pairs and entries are within the limits |
| `FetchMeanings.DelegationsMean` | sync-state/internal/staking/snapshot.go:112-144 | Delegations are accepted iff each is this address's, in ualpha, with readable shares and amount, and no validator has two |
| `FetchMeanings.SlashedEntries` | sync-state/internal/staking/snapshot.go:145-177 | An entry that was never slashed is accepted, and one with another balance iff it is not above the initial one |
| `FetchMeanings.SharesWithDecimals` | sync-state/internal/staking/snapshot.go:112-144 | Shares are a natural number with one to eighteen decimals, or none |
| `FetchMeanings.StakeMeans` | sync-state/internal/staking/positions.go:21-58 | The claim's stake with a validator is the amount of the one delegation to it and the sum and number of the entries of its one unbonding |
| `FetchMeanings.ExposureMeans` | sync-state/internal/staking/store.go:135-177 | The claim exposes the address to the validators of its delegations and of unbonding or moving entries, both sides of a move included, and to no others; it has a position for the first two |
| `NativeChanges.PostedAccountsAreInvalidated` | sync-state/internal/bank/native.go:14-79 | Main result. When the ledger engine and the invalidation reader both succeed on a block, the account and counterparty of every staking row and the delegator and validators of every maturing entry are named in the changes |
| `NativeChanges.ReadingsAgree` | sync-state/internal/bank/native.go:14-79 | For one event, reading only the prefix of its scope and reading the whole scope name the same delegator and validators whenever both succeed |
| `NativeChanges.FounderOfPrefix` | sync-state/internal/bank/native.go:49-58 | A validator creation read on the prefix names the same self-delegator as the spender found in the whole scope |
| `NativeChanges.ReadNativeChanges` | sync-state/internal/bank/native.go:14-79 | Fails on malformed metadata and otherwise returns the concatenated changes of the events in execution order, each read against the earlier events of its scope |
| `NativeChanges.ReadChange` | sync-state/internal/bank/native.go:25-76 | What one event contributes, jail-only notifications and events of other kinds included |
| `NativeMeanings.SlashMeans` | sync-state/internal/bank/native.go:59-72 | A slash widens to all exposed addresses iff it has natural burned coins and an address; a notice that only jails changes nothing; any other slash is an error |
| `NativeMeanings.DelegatorMeans` | sync-state/internal/bank/native.go:25-34 | Delegating, unbonding, cancelling and completing concern exactly the delegator and validator they name, and fail iff one is missing (or, for unbonding, the completion time) |
| `NativeMeanings.RedelegationMeans` | sync-state/internal/bank/native.go:35-48 | A redelegation concerns both validators and the one account that withdrew rewards since the one before, its completion the delegator it names; it fails iff a field or that account is missing |
| `NativeMeanings.FounderMeans` | sync-state/internal/bank/native.go:49-58 | A new validator concerns itself and the one spender of its coin, and fails iff there is not exactly one ualpha coin with one spender |
| `NativeMeanings.BlockChangeMeans` | sync-state/internal/bank/native.go:14-79 | An address or validator is among the changes of the block iff it is among those of one of its events, and the block widens iff one event does |
| `EventOrder.PositionEvent` | sync-state/internal/rpc/event_order.go:25-60 | Fails iff a metadata attribute is repeated or does not fit the source list; otherwise the coordinates are those the attributes state, with message -1 when none is given |
| `EventOrder.WellFormedIsReadable` | sync-state/internal/rpc/event_order.go:25-60 | Metadata is refused iff a key occurs twice, a mode is neither of the two or stands on a transaction event, or a message index is no natural number or stands on a block event |
| `EventOrder.PositionRunsAt` | sync-state/internal/rpc/event_order.go:25-60 | Events of a transaction run in the transaction phase, block events before everything, at its begin or at its end as their mode says, with the message index that they state |
| `EventOrder.OrderedEvents` | sync-state/internal/rpc/event_order.go:62-93 | Fails iff some event is malformed; otherwise the output holds exactly the events at their source coordinates, in strictly rising (phase, tx, event) order |
| `EventOrder.OrderIsUnique` | sync-state/internal/rpc/event_order.go:62-93 | That contract determines the output: a block has one execution order |
| `EventOrder.FirstPassAscends` | sync-state/internal/rpc/event_order.go:62-93 | The positions met by one pass over rising heights ascend strictly across block borders |
| `Infusion.GuardIsTupleOrder` | sync-state/internal/events/infusion.go:111-140 | The nested comparison of the handler agrees with the SQL tuple comparison for every pair of positions |
| `Economy.DeliveryOrderIrrelevant` | sync-state/internal/events/economy_position.go:12-79 | Main result. Two delivery sequences of the same set and reset facts at distinct positions, in any order and with any repeats, leave the same rows and the same watermarks |
| `Economy.DeliveriesSummarise` | sync-state/internal/events/economy_position.go:12-79 | After any deliveries every row, position and watermark is the one the facts call for, rows older than the position table included |
| `Economy.SurvivesExactly` | sync-state/internal/events/economy_position.go:34-79 | An entity has a row iff its latest set is later than the latest reset of the family, and the row is that set |
| `Economy.GuardMeansSuperseded` | sync-state/internal/events/economy_position.go:12-20 | The stored positions suppress a set iff a set of the entity or a reset of the family that is not earlier was already delivered |
| `Economy.ResetGuardMeansSuperseded` | sync-state/internal/events/economy_position.go:34-45 | A reset is skipped iff a reset of its family that is not earlier was already delivered |
| `Economy.SetKeepsSummary` | sync-state/internal/events/economy.go:70-139 | Delivering a set, fresh or stale, keeps the tables a summary of the delivered facts |
| `Economy.ResetKeepsSummary` | sync-state/internal/events/economy_position.go:34-79 | Delivering a reset, fresh or stale, keeps the tables a summary of the delivered facts |
| `Economy.SummaryIsUnique` | sync-state/internal/events/economy_position.go:12-79 | The facts determine the tables |
| `Economy.Store.Handle` | sync-state/internal/events/economy.go:70-155 | Fails exactly on an unlawful payload. A set without a stored position of the entity or watermark at or after it is then the stored row; a reset without a watermark at or after it leaves no row of its family without a later position and becomes the watermark; nothing else is lost, and a delivery that is superseded changes nothing. Marks every owner or reactor whose row changed, and native evidence when a commission was set |
| `Economy.DeliverMeans` | sync-state/internal/events/economy.go:70-155 | Which deliveries are lawful (reset families, identifiers, revisions), when a stored position blocks one, and what takes effect otherwise, for all tables |
| `Economy.FirstPassAppliesAll` | sync-state/internal/events/economy_position.go:12-20 | Along strictly rising positions above everything stored, no set and no reset is suppressed |
| `FirstPass.EconomyIsNeverSuppressed` | sync-state/internal/rpc/event_order.go:25-93 | Main result. Dispatching blocks of rising heights, each in execution order, on tables whose positions come from lower heights, suppresses no set and no reset: right after each lawful delivery its effect is in the tables |
| `FirstPass.InfusionIsNeverSuppressed` | sync-state/internal/rpc/event_order.go:25-93 | In the same pass every lawful infusion event of a key without history applies, with its row, position and legs as its effect |
| `FirstPass.HandledAscends` | sync-state/internal/rpc/event_order.go:62-93 | Whatever the handlers of one family pick from the pass, their deliveries keep strictly rising positions |
| `Infusion.OnlyRecordsApply` | sync-state/internal/events/infusion.go:111-227 | After any deliveries an event applies iff every earlier delivered event of its key has a smaller position; any other leaves tables and buffer unchanged |
| `Infusion.PositionIsRecord` | sync-state/internal/events/infusion.go:98-140 | The stored position of a key is the greatest delivered one |
| `Infusion.FirstPassAppliesAll` | sync-state/internal/events/infusion.go:111-140 | Along strictly rising positions no event is suppressed |
| `Infusion.FuelIsConserved` | sync-state/internal/events/infusion.go:243-271 | For any delivery sequence of struct snapshots and deletes on one key, the infused debits since the last applied delete, and likewise the credits, sum to the current fuel |
| `Infusion.Store.Handle` | sync-state/internal/events/infusion.go:142-227 | Applies, skips or fails as the guard says; marks the address and both the old and the new owner of every changed row, and the reactor and native evidence when the mutation concerns a reactor |
| `Infusion.DeliverMeans` | sync-state/internal/events/infusion.go:142-271 | A lawful event later than what its key reflects takes effect: the row becomes the snapshot or goes, the position is the event's, and a struct's change in fuel is debited in ualpha and credited in ualpha.infused; any other event changes nothing |
| `Infusion.GuardMeans` | sync-state/internal/events/infusion.go:98-140 | The guard applies an event iff it is later than the stored position, or without one than every infused ledger row of a key that has a row; it stops at a position of this height whose phase was never stored |
| `Infusion.OneDeliveryConserves` | sync-state/internal/events/infusion.go:243-271 | Each single delivery keeps the posted sum equal to the fuel |
| `InfusionReconcile.Reconcile` | sync-state/internal/events/infusion_reconcile.go:24-160 | Succeeds iff every legacy position at the height is proven by the last mutation of its key in the block; then exactly those positions and rows become what that mutation leaves, and their addresses, reactors, players and asset owners are marked; otherwise nothing changes |
| `ReconcileMeanings.ReconcilableMeans` | sync-state/internal/events/infusion_reconcile.go:24-160 | It succeeds iff every mutation of the block is lawful and each position of this height without a phase has the coordinates of the last event for its key, whose snapshot differs from the row at most in an owner or flag not stored yet, or whose deletion left no row |
| `ReconcileMeanings.AdoptionMeans` | sync-state/internal/events/infusion_reconcile.go:117-145 | Each such position gains the phase of that event and nothing else, its row the owner and flag; all other positions stay |
| `InfusionReconcile.ReplayIsSilent` | sync-state/internal/events/infusion_reconcile.go:24-160 | Main result. After reconciliation, dispatching any prefix of the same block in execution order changes no reconciled row or position, posts no infused ledger row for such a key and meets no position of unknown phase |
| `InfusionReconcile.LastIsLast` | sync-state/internal/events/infusion_reconcile.go:30-81 | The mutation kept for a name is the latest one of the block that names it |
| `InfusionReconcile.GroupByName` | sync-state/internal/events/infusion_reconcile.go:30-81 | One pass keeps the last mutation of every name; an unreadable event fails it |
| `Coins.ParseCoins` | sync-state/internal/bank/coins.go:17-42 | Reads the comma-separated list as the coin grammar prescribes, error cases and skipped zero amounts included |
| `Coins.ParsedCoinsReparse` | sync-state/internal/bank/coins.go:15-42 | Parsed coins have distinct denominations and positive amounts below 2^256, and each printed alone re-parses to exactly that coin |
| `Coins.PrintedCoinParses` | sync-state/internal/bank/coins.go:15-42 | Printing a normal coin and parsing it gives that coin back |
| `Coins.NarrowedAmountIsFound` | sync-state/internal/bank/process.go:71-114 | For each coin of an event the narrowed copy yields exactly that coin to the handlers and leaves every other attribute, so their silent exits are never taken |
| `Coins.ContainsCoin` | sync-state/internal/bank/coins.go:93-104 | Whether the coin set of the event holds exactly this coin; a malformed set is an error |
| `Coins.ReadEventCoins` | sync-state/internal/bank/coins.go:44-60 | The coin set of the single amount attribute |
| `Correlation.ValidatorSpender` | sync-state/internal/bank/correlation.go:96-119 | Names the account iff exactly one account spent this coin in the scope and every spending is readable |
| `Meanings.SpenderMeans` | sync-state/internal/bank/correlation.go:96-119 | The spender is the only name in the set of names under which coin_spent events hold the coin, when all of them are readable |
| `Correlation.RedelegationOwner` | sync-state/internal/bank/correlation.go:121-146 | Names the account iff exactly one withdrew rewards from the source validator after the previous redelegation and before this one |
| `Meanings.OwnerMeans` | sync-state/internal/bank/correlation.go:121-146 | The owner is the only delegator of withdraw_rewards events for the source validator between the redelegation before and this one |
| `Correlation.SpenderOfPrefix` | sync-state/internal/bank/correlation.go:96-119 | If the whole scope and a prefix both determine a spender, it is the same account |
| `Correlation.OwnerOfPrefix` | sync-state/internal/bank/correlation.go:121-146 | The redelegation owner depends only on the events before it |
| `Correlation.TransferOverlap` | sync-state/internal/bank/correlation.go:15-94 | Skips a leg only when a matching receipt together with its mint or burn covers it and this is the sole transfer of the coin between the two accounts; both legs covered, several such transfers, a malformed receipt or a malformed coin set are errors |
| `Correlation.OverlapMeans` | sync-state/internal/bank/correlation.go:15-94 | A refine receipt for the recipient with a mint by the sender always suppresses the received leg, an infuse receipt for the sender with a burn by the recipient the sent leg, and nothing else does; it fails iff something that decides this is unreadable or the transfer is not the only one or both legs would go |
| `Correlation.CoveredLegs` | sync-state/internal/bank/correlation.go:15-94 | Decides which leg the receipts of the scope cover |
| `Correlation.CountHolders` | sync-state/internal/bank/correlation.go:34-92 | Counts the matching events that hold the coin; one unreadable matching event is an error |
| `Bank.ValidateBankFields` | sync-state/internal/bank/coins.go:62-91 | Accepts iff every field that the kind of the event needs is present, and nonempty except for a recipient of a transfer |
| `NativeMeanings.FieldsMean` | sync-state/internal/bank/coins.go:62-91 | Which attributes each kind must carry, kind by kind |
| `Bank.CollectGroups` | sync-state/internal/bank/process.go:24-58 | Every scope collects exactly its events in order, and each event knows how many of its scope precede it |
| `Bank.Buffer.ProcessBlock` | sync-state/internal/bank/process.go:24-58 | Succeeds iff every event of the ordered block posts; then exactly the specified rows are appended. On failure earlier rows stay in front |
| `Bank.Buffer.ApplyBank` | sync-state/internal/sync/block.go:121-132 | With the caller's snapshot and restore a failing block appends nothing at all |
| `Bank.Buffer.ProcessEvent` | sync-state/internal/bank/process.go:71-114 | Posts every coin of the event, in order, or fails |
| `Bank.Buffer.ProcessCoin` | sync-state/internal/bank/process.go:71-114 | Appends exactly the legs and maturing entry of one coin |
| `Bank.Buffer.HandleTransfer` | sync-state/internal/bank/process.go:236-258 | Appends the sent and received legs that are not covered by a receipt |
| `Bank.Buffer.HandleDelegate` | sync-state/internal/bank/process.go:288-299 | Appends the three legs of a delegation |
| `Bank.Buffer.HandleRedelegate` | sync-state/internal/bank/process.go:315-338 | Appends the four legs and the maturing entry that Meanings.RedelegationPosts reads off the event for the correlated owner, or fails |
| `Bank.Buffer.HandleUnbond` | sync-state/internal/bank/process.go:367-386 | Appends four legs and one maturing entry, or fails on an unreadable completion time |
| `Bank.Buffer.HandleCompleteUnbonding` | sync-state/internal/bank/process.go:411-422 | Appends the three legs that return matured stake |
| `Bank.Buffer.HandleCreateValidator` | sync-state/internal/bank/process.go:433-448 | Appends the self-delegation legs of the correlated spender, or fails |
| `Bank.Buffer.PushMove` | sync-state/internal/bank/process.go:315-403 | Appends the four mirrored legs of a move between two staked families |
| `Bank.Buffer.PushDefusion` | sync-state/internal/bank/process.go:157-177 | Appends one maturing entry, or fails on an unreadable time without appending |
| `Bank.Buffer.Restore` | sync-state/internal/buffers/buffer.go:155-222 | Round trip with Snapshot: whatever rows were appended since the snapshot, the buffer is again exactly what it was when the mark was taken |
| `BankIdentities.BlockIsUnique` | sync-state/internal/bank/process.go:24-147 | Main result. The ledger rows of one block have pairwise distinct (time, chain, tx, msg, encoded event, denom) identities and its maturing entries distinct (tx, event, denom) keys, whatever coins the events carry, suffixed denominations included |
| `BankIdentities.EventIsUnique` | sync-state/internal/buffers/buffer.go:31-38 | The same inside one event with several coins; every encoded index decodes to the event |
| `BankIdentities.CoinPosts` | sync-state/internal/bank/process.go:132-177 | One coin never posts two rows under one identity: legs differ in the index and stay below the stride |
| `Conservation.StakingBalances` | sync-state/internal/bank/process.go:288-448 | Main result. Over the staking events of any block the signed sum in the infused and defusing family on one side of any division of the accounts equals the sum of its counterparties, and an account that no event names as a validator keeps its total over wallet and staked family |
| `Conservation.StakingConserves` | sync-state/internal/bank/process.go:288-448 | The same for the legs of each single staking operation |
| `Conservation.PostedConserves` | sync-state/internal/bank/process.go:71-114 | The same for what the engine posts for one coin of one staking event |
| `LedgerEffects.PathMoves` | sync-state/internal/bank/process.go:288-448 | Main result. However a coin of stake wanders through delegation, redelegation, unbonding, cancellation and completion, over whatever blocks, the rows posted for it add up, for every account and denomination, to one move from the first stage to the last |
| `LedgerEffects.OperationMoves` | sync-state/internal/bank/process.go:288-448 | Each staking operation moves the whole coin from the stage it leaves to the stage it joins and touches no other balance |
| `LedgerEffects.RoundTripCancels` | sync-state/internal/bank/process.go:388-422 | What comes back to where it started leaves no trace: delegating and returning, or unbonding and cancelling, cancel out in every balance |
| `LedgerEffects.PostedMoves` | sync-state/internal/bank/process.go:71-114 | What the engine posts for one coin of a staking event is that move, for the accounts found by correlation |
| `Meanings.StakingPostsMove` | sync-state/internal/bank/process.go:288-448 | For every kind of staking event the rows posted move the coin of the account whose stake it is between the two stages that the event's own attributes name, completed redelegations staying with the destination validator |
| `Meanings.RedelegationPosts` | sync-state/internal/bank/process.go:315-338 | A redelegation moves the owner's coin from what is bonded to source_validator to what matures at destination_validator, and leaves one entry that names both, the owner, the amount and the completion time |
| `Meanings.UnbondingPosts` | sync-state/internal/bank/process.go:157-177 | An unbonding leaves one entry with its validator, delegator, amount and completion time; no kind but unbonding and redelegation leaves any |
| `Meanings.SupplyPosts` | sync-state/internal/bank/process.go:260-286 | A mint credits its minter by the coin, a burn debits its burner, and no other balance changes |
| `Meanings.TransferPosts` | sync-state/internal/bank/process.go:226-258 | A transfer debits the sender attribute and credits the recipient attribute by the coin, less the leg a receipt accounts for |
| `Meanings.RowsCarryTheirEvent` | sync-state/internal/bank/process.go:132-155 | Every row carries the block, the transaction and an index of its own event, and the amount of its coin |
| `Meanings.StakingRowsNameTheirParties` | sync-state/internal/bank/process.go:288-448 | Every staking row is called after its kind and mirrors the delegator with the validator that the stake leaves or joins |
| `Meanings.CoinFailsIff` | sync-state/internal/bank/process.go:71-114 | A coin fails to post iff its overlap does, nobody is correlated with it, or its completion time is unreadable |
| `NativeMeanings.EventFailsIff` | sync-state/internal/bank/process.go:71-114 | An event fails to post iff its coins are unreadable, a field is missing or one of its coins fails |
| `LedgerEffects.TransferMoves` | sync-state/internal/bank/process.go:226-258 | A transfer debits the sender and credits the recipient by the coin, except for the one leg that a receipt accounts for |
| `LedgerEffects.CoveredTransferNets` | sync-state/internal/bank/process.go:226-280 | When a receipt accounts for one leg, the other leg and the covering mint or burn of the scope cancel for every account, so the pool in between nets to zero |
| `StakingLedger.FamilyIsItsOwn` | sync-state/internal/bank/process.go:288-448 | Reading the ledger by denomination finds exactly the staking rows of that coin iff no other coin of a staking event has a denomination, or gets a suffixed one, inside that family |
| `StakingLedger.StoredBalances` | sync-state/internal/bank/process.go:288-448 | Without such a coin the books read by denomination balance between both sides, and bystanders keep their total |
| `StakingLedger.NestedBlockUnbalances` | sync-state/internal/bank/process.go:71-114 | Concrete case: the engine accepts a block that delegates "5abc.infused", and the rows found for "abc" do not balance |
| `Inventory.RecomputeIsExact` | sync-state/internal/readmodel/project.go:121-186 | Main result. From consistent books and after any handlers and new ledger rows, a recompute makes every owner row the sum over the addresses it owns now iff each owner that the marks do not reach lost no address, or only addresses that held nothing on balance while it holds the denomination elsewhere |
| `Inventory.RebuiltIsExact` | sync-state/internal/readmodel/project.go:454-476 | Rebuilding only the marked owners gives the same table as aggregating all of them iff the others lost nothing |
| `Inventory.UnmarkedOwner` | sync-state/internal/readmodel/project.go:150-186 | An owner that is not marked keeps its addresses and balances except for the addresses it lost |
| `Inventory.RecomputedLiquid` | sync-state/internal/readmodel/project.go:422-449 | After a recompute, under no assumption about ownership, every address holds in every denomination but the claims the signed sum of its ledger rows, credits positive and debits negative, and has a row iff it has a ledger row |
| `Inventory.AggregateIsSigned` | sync-state/internal/readmodel/project.go:422-449 | The aggregate of any ledger holds exactly these signed sums |
| `Inventory.ConsistentMeans` | sync-state/internal/readmodel/project.go:454-476 | In consistent books each owner holds, per denomination, the signed sum of all ledger rows of the addresses it owns |
| `Inventory.FreshInserts` | sync-state/internal/buffers/buffer.go:360-407 | Inserting rows leaves exactly one stored row per identity: each given identity is stored afterwards, none is stored twice, and rows that were stored stay as they were |
| `Inventory.SeparateLosesNothing` | sync-state/internal/events/address.go:68-89 | If no address is both a player's and a vault's and no two vaults share one, nobody loses an address unmarked, whatever the ownership view prefers |
| `Inventory.DeltasKeepAggregate` | sync-state/internal/readmodel/project.go:422-449 | Crediting the deltas of newly stored rows gives the aggregate of the longer ledger |
| `Inventory.CreditedInParts` | sync-state/internal/readmodel/project.go:422-449 | Crediting concatenated deltas once equals crediting them in parts |
| `Inventory.ReflushIsSilent` | sync-state/internal/buffers/buffer.go:343-407 | Flushing rows that were flushed before, whatever was stored since, stores nothing and returns no deltas |
| `Inventory.FreshInParts` | sync-state/internal/buffers/buffer.go:343-358 | Splitting a flush into batches stores the same rows |
| `Projection.WindowEqualsPerBlock` | sync-state/internal/sync/bulkwindow.go:100-130 | Main result. For any window whatever, one recompute over the merged marks and concatenated deltas gives the same tables as one recompute per block iff every owner truly holds the same at the two points at which the two schedules last rebuilt it |
| `Projection.SeparateWindowIsExact` | sync-state/internal/sync/bulkwindow.go:100-130 | Main result. If at the end of the window no address is both a player's and a vault's and no two vaults share one, both schedules are exact and equal, also when addresses change owner inside the window and when blocks are replayed |
| `Projection.WindowIsExact` | sync-state/internal/sync/bulkwindow.go:100-130 | One recompute for a window is exact iff the owners that its marks do not reach lost nothing |
| `Projection.LiquidIsExact` | sync-state/internal/buffers/buffer.go:343-407 | Over any blocks, replays included, and under either schedule, every address balance is the signed sum of its ledger rows, credits positive and debits negative, over the ledger that the blocks leave |
| `Projection.WindowStoresAll` | sync-state/internal/buffers/buffer.go:343-407 | Every row that a block of the window posts is in the ledger afterwards |
| `Projection.PerBlockRows` | sync-state/internal/readmodel/project.go:454-476 | Block by block an owner's cached rows are its true rows at the time it was last rebuilt |
| `Projection.StaysSeparate` | sync-state/internal/events/economy.go:32-62 | What to look up before each event: the tables stay separate iff the event changes nothing or its address has no other vault and, for a vault, no player |
| `Projection.PerBlockIsExact` | sync-state/internal/readmodel/project.go:254-299 | Recomputing after every block is exact iff no owner's true rows have changed since it was last rebuilt |
| `Projection.WindowIsMarked` | sync-state/internal/readmodel/dirty.go:102-163 | Whatever happens in a window, its merged marks and concatenated deltas account for every changed address, every association left and every new row |
| `Projection.OpIsMarked` | sync-state/internal/events/address.go:68-89 | So do the marks of each single ownership event |
| `Projection.SourcesDecide` | sync-state/internal/readmodel/project.go:338-356 | Consistent projections are determined by the authoritative tables |
| `Displacement.EventIsExact` | sync-state/internal/events/economy.go:32-62 | For each of the three ownership events: the recompute after it is exact iff it takes its address from no unmarked owner, or from one for whom nothing hangs on it (every balance there is zero and the denomination is held elsewhere) |
| `Displacement.VaultDisplacesPlayer` | sync-state/internal/events/economy.go:32-62 | Concrete case: a vault opened at a player's address leaves the player with five coins it no longer has |
| `Displacement.PlayerDisplacesVault` | sync-state/internal/events/address_association.go:53-89 | Concrete case: a player registered at, or associated with, a vault's address leaves the vault's owner with them |
| `Displacement.SchedulesDiffer` | sync-state/internal/sync/bulkwindow.go:100-130 | Concrete case: block by block the displaced player goes stale, while one recompute of the same window is exact |
| `InventoryStore.Store.HandleAddress` | sync-state/internal/events/address.go:68-89 | Rejects an empty address; otherwise overwrites the association, an empty player included, and marks the address, the previous and the new player |
| `InventoryStore.Store.HandleAssociation` | sync-state/internal/events/address_association.go:53-89 | As above with a status; an unknown player is skipped silently |
| `InventoryStore.Store.HandleVault` | sync-state/internal/events/economy.go:32-62 | A vault never changes identity: only an unset creation flag is filled in, and success means the stored row is the announced one |
| `InventoryStore.Store.FlushBatch` | sync-state/internal/buffers/buffer.go:360-407 | Stores exactly the rows whose identity is new, repeats inside the statement skipped, and returns their deltas |
| `InventoryStore.Store.FlushLedger` | sync-state/internal/buffers/buffer.go:343-358 | In batches of 500 stores and returns exactly what one flush would |
| `InventoryStore.Store.RebuildOwners` | sync-state/internal/readmodel/project.go:454-476 | Deletes the stale rows of the given owners and upserts their aggregate over current addresses |
| `InventoryStore.Store.Recompute` | sync-state/internal/readmodel/project.go:254-299 | Credits the deltas, so that address balances of an up-to-date table are again the signed sums of the whole ledger, rebuilds exactly the owners the marks expand to, and clears the marks |
| `InventoryStore.Store.ApplyWindow` | sync-state/internal/sync/bulkwindow.go:100-130 | The window path has the specified result |
| `InventoryStore.Store.ApplyEach` | sync-state/internal/sync/block.go:92-230 | The per-block path has the specified result |
| `IngestSafety.EveryRunIsSafe` | sync-state/internal/sync/syncer.go:130-346 | Main result. In every run, with failures at any rebuild, fetch, apply or cursor read, the committed heights fill an interval from the start without a hole, no streamed block meets stale projections, and past the upgrade height the coverage record equals the cursor |
| `IngestRepeats.ExactlyOnceIff` | sync-state/internal/sync/syncer.go:155-180 | Main result. In any run each height is committed exactly once and in order iff no turn that commits starts with its next height at or below the cursor |
| `IngestRepeats.TurnLosesPlace` | sync-state/internal/sync/syncer.go:171-178 | A turn leaves the next height behind the committed ones iff it is a streamed turn that committed at least one block, failed for a while and could not read the cursor |
| `IngestSafety.EveryHeightOnce` | sync-state/internal/sync/syncer.go:155-180 | In particular, if the cursor can be read again after every failure, each height is committed exactly once |
| `IngestSafety.RequiredStartIsSafe` | sync-state/internal/db/economy_coverage.go:44-62 | The coverage check passes iff every run that starts above the cursor keeps the safety invariant |
| `IngestSafety.LostRereadRepeats` | sync-state/internal/sync/syncer.go:171-178 | Without that read a concrete run commits a streamed block twice |
| `IngestSafety.BulkTurnAppliesItsPlan` | sync-state/internal/sync/syncer.go:276-326 | A bulk turn commits its whole current plan or nothing; a prefetched window for another plan contributes nothing |
| `IngestSafety.RunKeeps` | sync-state/internal/sync/syncer.go:130-346 | Both strengths of the loop invariant hold after every sequence of turns |
| `IngestSafety.ResolveStart` | sync-state/internal/sync/syncer.go:664-683 | An override is taken as it is; otherwise the start is the greater of the height after the cursor, or 1 without one, and the earliest height of the node |
| `IngestSafety.GuardReplay` | sync-state/internal/sync/syncer.go:695-739 | Accepts any start above the cursor, the highest logged block and the cursors of other chains, or with permission to replay; any other it refuses if another chain has a cursor or the log is ahead of the cursor, and else moves to the height after the cursor |
| `IngestSafety.GuardedRunIsSafe` | sync-state/internal/sync/syncer.go:664-739 | Whatever start is configured, a run that the guard lets begin is safe |
| `IngestProgress.HealsAndCatchesUp` | sync-state/internal/sync/syncer.go:139-180 | Main result. After any run of failing turns that did not abort, enough turns without failure bring the loop to the last height with every height from the start committed exactly once over the whole run; a one-shot run then ends with fresh projections |
| `IngestProgress.CatchesUp` | sync-state/internal/sync/syncer.go:200-346 | With n turns without failure the loop is n heights further or at the end, misses and repeats nothing, and finishes only with everything committed and fresh projections |
| `IngestProgress.SmoothTurnAdvances` | sync-state/internal/sync/syncer.go:261-346 | A turn without failure commits its whole window, which has at least one block |
| `IngestProgress.SmoothIdle` | sync-state/internal/sync/syncer.go:224-258 | At the end of the chain such a turn commits nothing, rebuilds what is stale and stops iff it is meant to |
| `IngestProgress.NoneIsRefused` | sync-state/internal/db/economy_coverage.go:15-39 | A loop that resumes right after its cursor never meets a coverage refusal |
| `Ingest.CoverageTable.Record` | sync-state/internal/db/economy_coverage.go:15-39 | Before the upgrade nothing is recorded; from it on a block is refused iff it neither repeats the recorded block nor extends it by one |
| `Ingest.Loop.Once` | sync-state/internal/sync/syncer.go:200-346 | One turn has exactly the effect of the step relation whose meaning in terms of tip, stop height, settings and failures is stated by the members of IngestTurns |
| `IngestTurns.RunStopsAtStop` | sync-state/internal/sync/syncer.go:219-240 | With a stop height no run commits above it, whatever tips the node reports and whatever fails |
| `IngestTurns.TurnStaysInside` | sync-state/internal/sync/syncer.go:219-274 | No turn commits above the tip it was told |
| `IngestTurns.SmoothTurnMeans` | sync-state/internal/sync/syncer.go:219-258 | Without failure, a turn past a stop height finishes without committing, one at the tip waits or, one-shot, finishes, and one short of both commits from the next height on |
| `IngestTurns.SmoothTurnCommits` | sync-state/internal/sync/syncer.go:261-346 | It then commits the bulk window or the batch, clamped to what is left up to the tip or the stop height; it is bulk iff bulk is on and that lag has reached the threshold; deferred projections are then stale and the following window is being fetched |
| `IngestTurns.InterruptedTurn` | sync-state/internal/sync/syncer.go:155-180 | After a transient failure to fetch, a stream has committed exactly the blocks it reached and a bulk window none, and the loop goes on after its cursor if it can read it |
| `IngestTurns.TransientKeepsRunning` | sync-state/internal/sync/syncer.go:155-180 | Transient failures never end the loop |
| `IngestTurns.OnlyRebuildRefreshes` | sync-state/internal/sync/syncer.go:183-198 | Stale projections become fresh only by a successful rebuild |
| `IngestTurns.PrefetchIsUsed` | sync-state/internal/sync/syncer.go:276-295 | A prefetch of exactly the current window is used instead of fetching again |
| `IngestTurns.CommitMeans` | sync-state/internal/db/economy_coverage.go:15-39 | A block is refused iff it is on the upgraded network, at or past the upgrade, and neither first there, nor next after the covered block, nor that block again; otherwise it is committed, logged and covered |
| `Ingest.Loop.ApplyBulk` | sync-state/internal/sync/bulkwindow.go:52-170 | A window commits completely or not at all, and deferred projections become stale only after a commit |
| `Ingest.Loop.Stream` | sync-state/internal/sync/syncer.go:372-462 | Streaming commits the blocks it reached, one by one, also when it fails later |
| `Ingest.Loop.Recover` | sync-state/internal/sync/syncer.go:158-180 | Drops the prefetch and resumes after the cursor when it can be read and is ahead |
| `Ingest.Loop.EnsureProjections` | sync-state/internal/sync/syncer.go:184-199 | Stale projections are rebuilt or the turn ends as the failure demands |
| `ParallelFetch.WindowIsEmittedInOrder` | sync-state/internal/sync/syncer.go:372-462 | Main result. For every interleaving of the workers, at most the configured number fetch at once, the emitted blocks are the first heights of the window in order, each once, and a schedule that cannot continue has emitted the whole window or met a failed fetch |
| `ParallelFetch.RunsAreShort` | sync-state/internal/sync/syncer.go:372-462 | No schedule takes more than five steps per height, so the loop terminates once every fetch returns |
| `ParallelFetch.Progress` | sync-state/internal/sync/syncer.go:372-462 | While heights are missing and nothing failed, some step is enabled |
| `ParallelFetch.StepKeeps` | sync-state/internal/sync/syncer.go:372-462 | Every step of every worker and of the consumer keeps the reorder invariant |
| `ParallelFetch.NoWorkersNoProgress` | sync-state/internal/sync/syncer.go:372-462 | With no worker a window never moves |
| `ParallelFetch.Window.Deliver` | sync-state/internal/sync/syncer.go:425-462 | One arrival emits everything that has become contiguous; a failed fetch emits nothing |
| `RawMirror.BatchingIsInvisible` | sync-state/internal/sync/block.go:394-457 | Main result. Whatever the batch limit, the event and attribute tables after a window are those of writing after every block, because the heights of a window are distinct |
| `RawMirror.RepeatedHeightDiffers` | sync-state/internal/db/rawmirror.go:101-147 | Concrete case: with one height twice in a batch the rows of its first visit would survive |
| `RawMirror.AttributeRowsAreLookups` | sync-state/internal/sync/block.go:394-430 | The attribute rows of an event hold each key once, with the value a lookup finds |
| `RawMirror.RowsMean` | sync-state/internal/sync/block.go:351-430 | A block mirrors every block event under transaction -1 and every transaction event under its transaction, at its index with its kind and its attribute rows, and nothing else |
| `RawMirror.ReplacedMeans` | sync-state/internal/db/rawmirror.go:101-186 | A write removes exactly the rows at the heights it brings rows for, and adds its own |
| `RawMirror.ReplacedTwice` | sync-state/internal/db/rawmirror.go:101-186 | Two writes that share no height equal one write of both |
| `RawMirror.Writer.Write` | sync-state/internal/sync/block.go:351-457 | A flush happens only after a complete block |
| `RawMirror.Writer.WriteWindow` | sync-state/internal/sync/block.go:394-457 | A window leaves the specified tables and an empty batch |
| `Genesis.CreditsStayWithinTokens` | sync-state/internal/genesis/types.go:145-169 | Main result. When the shares sum to at most the delegator shares, the credits to a validator never exceed its tokens; when they sum exactly, less than one unit per delegation is lost |
| `Genesis.ExcessIsCredited` | sync-state/internal/genesis/types.go:145-169 | The other way round: delegations worth at least one unit each more than the tokens are credited more than the tokens |
| `Genesis.ExcessSharesOverrun` | sync-state/internal/genesis/types.go:145-169 | Concrete case: two delegations of all shares are credited twice the tokens |
| `Genesis.CreditBounds` | sync-state/internal/genesis/types.go:145-169 | One credit is the exact quotient rounded down |
| `Genesis.CreditIsRounded` | sync-state/internal/genesis/types.go:145-169 | Whatever the signs of shares and tokens, the credit is the exact quotient rounded toward zero |
| `Genesis.CreditsAreMirrored` | sync-state/internal/genesis/apply.go:174-216 | Each delegation posts two credits of equal amount in ualpha.infused, called genesis, that mirror delegator and validator |
| `Genesis.SectionsAreDistinct` | sync-state/internal/genesis/apply.go:299-324 | The shared counter keeps the identities of all sections apart and makes inserting in sections equal to inserting once |
| `Genesis.Importer.Insert` | sync-state/internal/genesis/apply.go:299-324 | Stamps the rows with consecutive numbers and advances the shared counter |
| `Genesis.Importer.InsertDelegations` | sync-state/internal/genesis/apply.go:174-216 | Two stamped rows per delegation in order; an unknown validator is worth nothing |
| `PlanetSequence.Table.Flush` | sync-state/internal/buffers/buffer.go:497-520 | Fails iff a row names no planet, then changes nothing stored; otherwise appends the rows in order so that every planet is numbered 0, 1, 2, … without gap or repetition |
| `PlanetSequence.Table.Reserve` | sync-state/internal/buffers/buffer.go:453-493 | Advances each planet by its number of rows and returns the first number of the reserved range; a failure reserves nothing |
| `PlanetSequence.NumbersIdentify` | sync-state/internal/buffers/buffer.go:453-520 | Numbers of one planet rise with storage order, by exactly one iff no row of it lies between |
| `PlanetSequence.FirstIsZero` | sync-state/internal/buffers/buffer.go:453-520 | A row has number 0 iff it is the first of its planet |

## Left out

- Projection.SeparateWindowIsExact: its table condition is sufficient; the exact conditions are in `Projection.WindowEqualsPerBlock`, `Projection.WindowIsExact` and `Projection.PerBlockIsExact`.
- Inventory.RecomputeIsExact: covers every denomination except the claims `ualpha.infused` and `ualpha.defusing`, which come from SQL functions that are not part of this model.
- InventoryStore.Store.Recompute: the claims and the other read models that the same statement sequence refreshes are not modelled.
- Projection.WindowEqualsPerBlock: the owners that guild collateral tags and other expansions add to a recompute are an arbitrary extra set; why they are added is not modelled.
- NativeEvidence.Store.Publish: the reconciliation of individual receipts is not stored in the model, and claims carry totals, positions and exposure but neither shares nor completion times.
- NativePublish.PublishSnapshot: a missing chain identifier is an error of the source that the model, which has one chain, does not have.
- NativeEvidence.Store.FlushReceipts: the maturing entries themselves are not kept, only that their delegators must be reconciled.
- NativeEvidence.Store.Pending: which selectable rows a limited batch takes first, and when a delay ends, is left open.
- NativeFetch.Fetch: the pages of one query arrive decoded, concatenated and in order; transport, page size and JSON errors are not modelled.
- NativeInvalidate.Invalidate: the reactor table and the ownership view are parameters; the order of names inside the change lists is not fixed.
- BankIdentities.BlockIsUnique: concerns the rows of one block; genesis rows use the same transaction and message index and are kept apart only by their time.
- Bank.Buffer.ProcessBlock: of a failing block it is only said that earlier rows stay in front; `Bank.Buffer.ApplyBank` models the caller that removes the rest.
- Infusion.FuelIsConserved: speaks of rows of struct destinations, because reactor destinations post no infused rows.
- Infusion.Store.Handle: payload decoding is done beforehand and amounts are natural numbers; the NULL columns that the code treats like an absent text are the empty text.
- Economy.Store.Handle: guild rank purchases, which change no table and only mark their guild and player, are not modelled.
- InventoryStore.Store.HandleVault: marks of the address and its owner only; the payload's other checks are done beforehand.
- ParallelFetch.WindowIsEmittedInOrder: a worker is a sequence of fetch, send and release steps; channel capacity, cancellation and logging are abstracted, and a failed fetch stops the window.
- Ingest.Loop.Once: sleeping, back-off, status texts and metrics are not modelled, and a chain identifier that changes during a run is not either; how far a streamed window got is a parameter of the turn.
- IngestSafety.GuardReplay: the three heights it compares are parameters; reading them from the tables is not modelled.
- RawMirror.Writer.Write: block and transaction rows, which are written directly for every block, are not modelled.
- Genesis.Importer.Insert: the bank, unbonding and ore sections are only row sequences to be numbered; batch sizes are not modelled.
- Genesis.CreditsStayWithinTokens: decimal texts are parsed beforehand; the arithmetic is exact, as that of the rational numbers of the source.
- PlanetSequence.Table.Flush: activity payloads and the trigger that attributes rows to players are not modelled.
- Map and set iteration order: wherever the program ranges over a map, the model takes any order or a set.
- Integer widths: heights, indexes and counters are unbounded; the 2^256 bound on coin amounts and the 64-bit range of metadata integers are modelled.
- Snapshot, Restore and Merge of the dirty marks: only the union of marks over a window is modelled.
- HTTP and JSON-RPC transport, failover, notifications, doctor, verify, configuration and migration tools: plumbing and diagnostics.
- Simple upsert handlers (players, guilds, planets, permissions and so on), leaderboards, guild bank ratios, work and claim refreshes: one table write each, or SQL functions that are not part of this model.
- Reorganisation check at start-up, and the operator tools that allow a replay: out of scope of the run theorems.
