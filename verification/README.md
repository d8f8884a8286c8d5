# Verification of the Stellar RWA contracts

A Dafny 4.11 model of the four Soroban contracts of this repository - the asset token, the compliance
contract, the dividend escrow and the registry - with proofs of what they keep over every run of calls.
`dafny verify dfyconfig.toml` checks all of it.

## How it is built

Each contract has the same four layers.

1. The module named after the contract (`AssetToken`, `Compliance`, `Dividend`, `Registry`) says on plain
   values what each call does to the stored state: an `Outcome` that either commits a new state or aborts
   with the error the code raises, in the code's order of checks. `Step` applies one transaction and `Run`
   a list of them, over any callers, ledgers and answers of other contracts.
2. The module ending in `Contract` holds a class with the storage entries as fields. Its methods read,
   change and write those fields one by one in the code's order, so several of them have already written
   when a later check fails. Each is proved against the outcome function. `Invoke` is the host's
   transaction: it runs a call and puts every field back if the call failed, and it is proved to be `Step`.
   The class therefore goes through exactly the states of `Run`, and a failing batch leaves no trace.
3. The modules ending in `Effects` say of each call, from its arguments and what everybody can read, when it
   is refused and with which error, and what a committed one leaves. They speak of balances, holdings, records
   and arguments rather than of the parts of the outcome functions, so that a call that moved the wrong amount,
   stored the wrong field or paid the wrong party would not satisfy them.
4. The remaining modules prove properties of `Run`.

For compliance the first layer knows only a plain list of addresses, while the class keeps pages of 200,
a reverse index, a cursor and a counter: the class invariant `Valid` and the contracts of its methods are
a refinement proof. `System` puts the token and any number of compliance contracts together.

The main results:

- Every call of the four contracts: the exact conditions and errors, and the exact effect, of a commit.
- Token: balances are non-negative and add up to the supply; batches are folds of single calls; the event
  log replays to the ledger; a holder that the current gate denies, and everything while paused, is frozen
  whatever is attempted; allowance accounting; the compounding effect of the valuation guard.
- Token with compliance: from a suspension, removal or expiry until a call that lifts it commits, no
  sequence of calls to either contract moves that holder's balance.
- Compliance: the pages are the plain list; pruning page by page is pruning the list, events included; the
  exact condition under which repeated pruning ends, at one ledger and at ledgers that advance; the counter
  against the list.
- Dividend: each distribution's account; the shared pot covers what is owed in every reachable state, so
  claim, reclaim and cancel succeed exactly when their own guards say so; each holder is paid its share once,
  whatever happens in between; claims made at any ledgers in any order lead to the same state; what stays in
  escrow once nobody can claim any more, exactly when that is only the documented dust, and when it stays for
  good.
- Registry: aggregates and indexes equal recomputation; pages tile.

## Where the code and its documentation differ

The model follows the code.

- `prune_expired` never updates the counter (contracts/compliance/src/lib.rs:957-1037), while
  docs/compliance.md:106-107 says the counter always matches the list. `CounterCountsPruned` gives the
  exact relation and when the two agree, `PruneLeavesCounterBehind` a run after which they differ.
- "Invoke again until the return value is 0" (contracts/compliance/src/lib.rs:935-937) does not always
  end, because every call restarts at page 0. `RepeatedPruningEndsIff` gives the exact condition at one
  ledger and `PruningOverTime` at ledgers that advance; `TwoLiveEntriesNeverEnd` gives a run after which it
  never ends, and `PermanentNeverEnds` the lists for which no ledgers help.
- "At most one unit per eligible holder can be stranded in escrow" (contracts/dividend/src/lib.rs:455-463,
  docs/dividend.md:27-28) needs three things that creation does not check (contracts/dividend/src/lib.rs:361-381).
  First, every product of the total with a holder's balance must fit i128: a holder whose product does not can
  never claim (contracts/dividend/src/lib.rs:494-500). Second, the escrow contract must not be listed with a
  positive share: a claim needs the holder's signature (contracts/dividend/src/lib.rs:541), which the contract
  never gives for itself. `AllCanBePaidIff` puts these two into what a creator has to check;
  `DocumentedDustStaysIff` and `LessThanOneUnitEachIff` show that together they are the exact condition for
  nothing but the dust, less than one unit per holder, to stay. `EscrowKeepsStranded` and
  `DocumentedBoundStaysIff` say what stays otherwise. In `OverflowingHolderStrandsAll` and
  `SelfListedStrandsHalf` the dust is zero, and i128::MAX units and half of the amount stay. Third, the
  snapshot must have a positive sum, while creation checks the asset token's supply
  (contracts/dividend/src/lib.rs:348-351): see `DustBoundIff`, `EmptySnapshotIsAccepted` and
  `EmptySnapshotPaysNobody`. Without a deadline, and once somebody has claimed, what is stranded can be
  neither reclaimed nor cancelled: see `StrandedForever` and `SelfListedHalfIsGone`.
- docs/compliance.md:186-188 says burning is not gated. The code gates it
  (contracts/asset-token/src/lib.rs:598-600): see `BurnEffect`. The frozen-holder results include it.
- The comment at contracts/registry/src/lib.rs:326-331 says that all assets of an issuer are returned;
  the code returns the first 100 (contracts/registry/src/lib.rs:347-350), as docs/registry.md says. See
  `FirstPageIsAllIff`, and `HundredAndOneAreCut` for a run after which one is left out.
- A `transfer_from` to oneself publishes as the sender's new balance the figure between the debit and the
  credit (contracts/asset-token/src/lib.rs:746-767). `SenderFigureRightIff` says exactly when the published
  figure is the balance, `EventsReplayTheLedger` that it is otherwise short by the amount, and
  `SelfTransferPublishesSix` gives a run that publishes 6 where 10 are held.
- A valuation above i128::MAX / 5000 can never be updated again, not even to itself
  (contracts/asset-token/src/lib.rs:958-967): see `ValuationCompounds`. `SomeUpdateCommitsIff` says that up to
  there it can, and `UpdateCommitsIff` to which values.
- `withdraw_unclaimed`, named in contracts/dividend/src/lib.rs:25-27 and 37-39, is not in the code.

## Model

| member | source | states |
|---|---|---|
| AssetTokenContract.Contract.Initialize | contracts/asset-token/src/lib.rs:203-261 | mints the supply to a compliant admin once, with both events, or the first error in order, the four length checks included |
| AssetTokenContract.Contract.ReadAllowance | contracts/asset-token/src/lib.rs:682-688 | an allowance reads as its amount up to its expiration ledger and as zero afterwards |
| AssetTokenContract.Contract.Transfer | contracts/asset-token/src/lib.rs:303-348 | checks in order, moves the amount and logs post-balances; a self-transfer only logs |
| AssetTokenContract.Contract.TransferBatch | contracts/asset-token/src/lib.rs:400-442 | the loop with per-entry writes computes the fold of its entries after one check of the sender |
| AssetTokenContract.Contract.TransferFrom | contracts/asset-token/src/lib.rs:721-769 | as transfer, spending the allowance; the recipient's balance is read after the debit |
| AssetTokenContract.Contract.Approve | contracts/asset-token/src/lib.rs:626-662 | replaces the pair's allowance, rejecting negative amounts and past ledgers |
| AssetTokenContract.Contract.Mint | contracts/asset-token/src/lib.rs:476-498 | admin only, recipient gated; supply and balance grow by the amount |
| AssetTokenContract.Contract.MintBatch | contracts/asset-token/src/lib.rs:534-558 | the loop with a running supply computes the fold of its credits and writes the supply once |
| AssetTokenContract.Contract.Burn | contracts/asset-token/src/lib.rs:591-613 | holder gated; supply and balance shrink by the amount |
| AssetTokenContract.Contract.Pause | contracts/asset-token/src/lib.rs:837-848 | admin or guardian sets the pause flag |
| AssetTokenContract.Contract.UpdateValuation | contracts/asset-token/src/lib.rs:952-982 | the 50% guard with its overflow check; a zero valuation is exempt |
| AssetTokenContract.Contract.Administer | contracts/asset-token/src/lib.rs:864-1075 | unpause, guardian, change of gate, nomination and its cancellation, admin only |
| AssetTokenContract.Contract.AcceptAdmin | contracts/asset-token/src/lib.rs:1099-1117 | the role moves only to the nominee, who signed |
| AssetTokenContract.Contract.Invoke | contracts/asset-token/src/lib.rs:383-388 | every call keeps its writes if it commits and leaves the whole ledger as it was if it fails |
| AssetTokenProofs.TransferBatchIsFold | contracts/asset-token/src/lib.rs:350-442 | a non-empty batch commits exactly when the single transfers would, with the same ledger and log |
| AssetTokenProofs.MintBatchIsFold | contracts/asset-token/src/lib.rs:500-558 | a non-empty mint batch commits exactly when the single mints would, supply included |
| AssetTokenProofs.StepKeepsInv | contracts/asset-token/src/lib.rs:203-769 | every call keeps balances non-negative and their sum equal to the supply |
| AssetTokenProofs.SupplyConserved | contracts/asset-token/src/lib.rs:203-769 | no balance is negative and the balances add up to the supply in every reachable ledger |
| AssetTokenProofs.OverflowOnlyFromSupply | contracts/asset-token/src/lib.rs:333-348 | in reachable states transfers and burns never overflow, and mints and mint batches only by the running supply itself |
| AssetTokenProofs.EventsReplayTheLedger | contracts/asset-token/src/lib.rs:253-260 | in every reachable ledger replaying the events gives every balance and the supply; published post-balances are those of the replay, but for the sender's in a transfer_from to oneself, short by the amount |
| AssetTokenProofs.SenderFigureRightIff | contracts/asset-token/src/lib.rs:746-767 | the sender's published figure is its new balance unless a transfer_from is to oneself |
| AssetTokenProofs.SelfTransferPublishesSix | contracts/asset-token/src/lib.rs:746-767 | a run of three calls after which 10 are held and 6 are published for the sender |
| AssetTokenEffects.TransferEffect | contracts/asset-token/src/lib.rs:303-348 | in reachable ledgers: the refusals in order; a commit moves exactly the amount, changes nobody else, and logs the call's own figures |
| AssetTokenEffects.EmptyBatchEffect | contracts/asset-token/src/lib.rs:400-442 | a batch without entries makes the sender's checks and changes nothing |
| AssetTokenEffects.TransferFromEffect | contracts/asset-token/src/lib.rs:721-769 | in reachable ledgers: the refusals in order; moves exactly the amount and spends exactly that of the pair's allowance |
| AssetTokenEffects.ApproveEffect | contracts/asset-token/src/lib.rs:626-662 | the refusals in order; stores exactly the amount and expiration given, for that pair alone |
| AssetTokenEffects.MintEffect | contracts/asset-token/src/lib.rs:476-498 | in reachable ledgers: the refusals in order; recipient and supply grow by exactly the amount |
| AssetTokenEffects.EmptyMintEffect | contracts/asset-token/src/lib.rs:534-558 | a mint batch without entries makes the admin's checks and changes nothing |
| AssetTokenEffects.BurnEffect | contracts/asset-token/src/lib.rs:591-613 | in reachable ledgers: the refusals in order, the gate's among them; holder and supply shrink by exactly the amount |
| AssetTokenEffects.InitializeEffect | contracts/asset-token/src/lib.rs:203-261 | the refusals in order with the four length limits; every field is the one given and the admin holds the supply |
| AssetTokenEffects.UpdateValuationEffect | contracts/asset-token/src/lib.rs:952-982 | the refusals in order; stores exactly the new valuation and publishes both |
| AssetTokenEffects.PauseEffect | contracts/asset-token/src/lib.rs:837-848 | only the admin or the guardian, and only the flag changes |
| AssetTokenEffects.AdministrationEffect | contracts/asset-token/src/lib.rs:864-1015 | unpause, guardian and change of gate: only the admin, and only that field |
| AssetTokenEffects.HandoverEffect | contracts/asset-token/src/lib.rs:1040-1117 | the role moves only to the signing nominee of the admin |
| AssetTokenProofs.FrozenHolder | contracts/asset-token/src/lib.rs:303-613 | over any run in which the gate in force denies an address its balance is constant |
| AssetTokenProofs.DebitNeedsAuthority | contracts/asset-token/src/lib.rs:303-769 | a balance falls only by its owner's signature or a signing spender within a live allowance |
| AssetTokenProofs.PauseFreezesEverything | contracts/asset-token/src/lib.rs:810-848 | over any run before whose every call the token is paused, balances, supply and stored allowances are constant |
| AssetTokenProofs.PauseLastsUntilUnpaused | contracts/asset-token/src/lib.rs:837-870 | a paused token stays so exactly until an unpause commits; failing attempts change nothing |
| AssetTokenProofs.StepAllowance | contracts/asset-token/src/lib.rs:734-761 | an allowance changes only by approval or by spending within its amount and expiration |
| AssetTokenProofs.ApprovalTakesEffect | contracts/asset-token/src/lib.rs:615-662 | a committed approval is exactly what can be spent at that ledger, and bounds every transfer_from |
| AssetTokenProofs.AllowanceAccounting | contracts/asset-token/src/lib.rs:626-769 | between approvals left plus spent is the approved amount, never negative, nothing after expiration |
| AssetTokenProofs.SelfTransferFromKeepsBalances | contracts/asset-token/src/lib.rs:746-761 | a self transfer_from spends allowance and moves nothing |
| AssetTokenProofs.ValuationCompounds | contracts/asset-token/src/lib.rs:952-975 | after n updates 2^n w <= 3^n v and v <= 2^n w; never zero, 1 absorbing, stuck above i128::MAX / 5000 |
| AssetTokenProofs.UpdateCommitsIff | contracts/asset-token/src/lib.rs:952-975 | a positive valuation moves exactly to within half of itself, and only if five thousand times it fits i128 |
| AssetTokenProofs.SomeUpdateCommitsIff | contracts/asset-token/src/lib.rs:958-967 | some update commits exactly if five thousand times the valuation fits i128 |
| ComplianceContract.Contract.GetAllowlist | contracts/compliance/src/lib.rs:662-680 | the walk over all pages returns the plain list |
| ComplianceContract.Contract.GetAllowlistPage | contracts/compliance/src/lib.rs:761-794 | for every layout of pages, the slice of the list at the offset with the clamped limit |
| ComplianceContract.Contract.AppendToAllowlist | contracts/compliance/src/lib.rs:1365-1396 | appends to the list, keeps the layout, counts one more append; fails only at the end of u32 |
| ComplianceContract.Contract.RemoveFromAllowlist | contracts/compliance/src/lib.rs:1423-1457 | takes the address out of the list and the index, keeps the layout |
| ComplianceContract.Contract.PrunePage | contracts/compliance/src/lib.rs:969-1012 | one page: the lapsed among the first entries within the bound go, with record and index entry, each announced |
| ComplianceContract.Contract.PruneAt | contracts/compliance/src/lib.rs:962-1033 | the loop body for one page: on top of the pages before, what is kept, published and left unexamined |
| ComplianceContract.Contract.PrunePages | contracts/compliance/src/lib.rs:957-1037 | all loops: what is kept on the pages, the events published, and the number of entries left unexamined |
| ComplianceContract.Contract.PruneExpired | contracts/compliance/src/lib.rs:957-1037 | the list becomes the unexpired of the first m entries and then the rest, with one event per expired record; returns the length less m |
| ComplianceContract.Contract.NormalizeJurisdiction | contracts/compliance/src/lib.rs:1468-1488 | the buffer loop accepts exactly two letters apart from spaces and returns them in upper case |
| ComplianceContract.Contract.CheckAllowed | contracts/compliance/src/lib.rs:529-589 | never panics in a valid state, answers approved, not blocked, unlocked and not expired, and publishes why it denies |
| ComplianceContract.Contract.AddToAllowlist | contracts/compliance/src/lib.rs:237-296 | validates, records, appends a new address only, and publishes what the record was before |
| ComplianceContract.Contract.AddToAllowlistBatch | contracts/compliance/src/lib.rs:333-389 | the loop over entries computes the fold of the single approvals |
| ComplianceContract.Contract.SuspendAddress | contracts/compliance/src/lib.rs:412-422 | only the status changes; the list is untouched |
| ComplianceContract.Contract.ReinstateAddress | contracts/compliance/src/lib.rs:450-463 | only from Suspended, and only the status changes |
| ComplianceContract.Contract.RemoveAddress | contracts/compliance/src/lib.rs:485-501 | record, list entry and index entry go together |
| ComplianceContract.Contract.BlockJurisdiction | contracts/compliance/src/lib.rs:818-837 | sets the flag and lists the code once |
| ComplianceContract.Contract.UnblockJurisdiction | contracts/compliance/src/lib.rs:860-879 | removes flag and list entry |
| ComplianceContract.Contract.SetMinHoldingPeriod | contracts/compliance/src/lib.rs:1220-1244 | sets the period; zero removes it |
| ComplianceContract.Contract.RecordFirstAcquisition | contracts/compliance/src/lib.rs:1280-1295 | writes the ledger once and never again |
| ComplianceContract.Contract.Invoke | contracts/compliance/src/lib.rs:308-314 | every call keeps the layout valid, and leaves everything as it was if it fails |
| CompliancePages.LayoutIsList | contracts/compliance/src/lib.rs:84-91 | the pages hold exactly the indexed addresses, each once |
| CompliancePages.LayoutAppend | contracts/compliance/src/lib.rs:1365-1387 | appending on the cursor's page or a fresh one keeps the layout, appends to the list, advances 200 * page + length by one |
| CompliancePages.LayoutDrop | contracts/compliance/src/lib.rs:1423-1447 | taking addresses off their pages and out of the index keeps the layout and filters the list |
| CompliancePrune.FrontStop | contracts/compliance/src/lib.rs:1018-1033 | stopping within a page is the prune of the list's front, and the sum over later pages is what is left |
| CompliancePrune.PruneIsFilter | contracts/compliance/src/lib.rs:957-1037 | dropping the lapsed of the front page by page is filtering the front of the plain list |
| Paging.PagesTile | contracts/compliance/src/lib.rs:739-746 | successive pages concatenate to a prefix of the list, without gap or repeat |
| Compliance.NormalizeIdempotent | contracts/compliance/src/lib.rs:1468-1488 | what normalisation returns normalises to itself |
| ComplianceProofs.RunKeepsInv | contracts/compliance/src/lib.rs:237-501 | over every run: listed exactly when recorded, once each; canonical codes; flags and blocked list agree |
| ComplianceProofs.CounterCountsPruned | contracts/compliance/src/lib.rs:732-737 | the counter is the list's length plus all entries ever pruned, so equal exactly when no prune has met a lapsed entry |
| ComplianceProofs.PruneShortensIff | contracts/compliance/src/lib.rs:976-1011 | a prune drops something exactly if one of the entries it examines has lapsed |
| ComplianceProofs.PruneLeavesCounterBehind | contracts/compliance/src/lib.rs:957-1037 | a run after which the list is empty and the counter one |
| ComplianceProofs.PruneAnnouncesEach | contracts/compliance/src/lib.rs:949-956 | a prune publishes one event for each entry it drops |
| ComplianceProofs.RemoveNeverSaturates | contracts/compliance/src/lib.rs:1449-1456 | a removal that commits finds a positive counter |
| ComplianceProofs.AddBatchIsFold | contracts/compliance/src/lib.rs:333-389 | a non-empty batch ends exactly as its single additions, state or error |
| ComplianceProofs.AllowedLedgersFormInterval | contracts/compliance/src/lib.rs:529-589 | the allowed ledgers have no gap, start at the unlock ledger and end just before expiry |
| ComplianceProofs.ApprovalTakesEffect | contracts/compliance/src/lib.rs:246-266 | a committed approval passes the gate at once unless blocked or still locked |
| ComplianceProofs.ReinstateUndoesSuspend | contracts/compliance/src/lib.rs:424-463 | suspend then reinstate restores the state but for the log |
| ComplianceProofs.RemoveUndoesAdd | contracts/compliance/src/lib.rs:485-501 | add then remove restores everything but the cursor and the log |
| ComplianceProofs.BlockShutsOutExactly | contracts/compliance/src/lib.rs:796-837 | a block denies exactly those recorded in the jurisdiction |
| ComplianceProofs.UnblockUndoesBlock | contracts/compliance/src/lib.rs:839-879 | block then unblock restores the state, list order included, but for the log |
| ComplianceProofs.PruneKeepsLive | contracts/compliance/src/lib.rs:983-1011 | a prune keeps every live entry and their order |
| ComplianceProofs.ZeroMeansClean | contracts/compliance/src/lib.rs:935-937 | a call that returns 0 leaves no lapsed entry |
| ComplianceProofs.RepeatedPruningEndsIff | contracts/compliance/src/lib.rs:930-937 | calling until 0 ends exactly if fewer live entries than the bound are listed, or as many with a live one last; within expired + 1 calls |
| ComplianceProofs.TwoLiveEntriesNeverEnd | contracts/compliance/src/lib.rs:930-937 | after initialization and two approvals, with bound 1, no call ever returns 0 |
| ComplianceEffects.SpacesDoNotMatter | contracts/compliance/src/lib.rs:1468-1488 | a space anywhere in a code changes nothing |
| ComplianceEffects.NormalizeExact | contracts/compliance/src/lib.rs:1468-1488 | without spaces exactly two letters are accepted, and returned in upper case |
| ComplianceEffects.AddEffect | contracts/compliance/src/lib.rs:237-296 | the refusals in order; a whole new record with the given expiry, listed if the address is new, and the event with what was before |
| ComplianceEffects.EmptyBatchEffect | contracts/compliance/src/lib.rs:333-389 | a batch without entries makes the admin's checks and changes nothing |
| ComplianceEffects.SuspendEffect | contracts/compliance/src/lib.rs:412-422 | the refusals; only the status of that record changes |
| ComplianceEffects.ReinstateEffect | contracts/compliance/src/lib.rs:450-463 | the refusals; only the status of that record changes |
| ComplianceEffects.RemoveEffect | contracts/compliance/src/lib.rs:485-501 | in reachable states: the record and its one place in the list go, the counter falls by one |
| ComplianceEffects.PruneEffect | contracts/compliance/src/lib.rs:957-1037 | in reachable states: exactly the expired among the first m entries go, with their records; the order stays, the counter too; returns the number not examined |
| ComplianceEffects.ExpiriesExact | contracts/compliance/src/lib.rs:983-1006 | the events of a prune: one per expired entry, with its expiry, in list order |
| ComplianceEffects.BlockEffect | contracts/compliance/src/lib.rs:818-837 | in reachable states: exactly the given code becomes blocked, and is listed once |
| ComplianceEffects.UnblockEffect | contracts/compliance/src/lib.rs:860-879 | in reachable states: exactly the given code stops being blocked and listed |
| ComplianceEffects.CheckEffect | contracts/compliance/src/lib.rs:529-589 | the gate's answer and the one event it publishes, from record, blocks, expiry, period and acquisition |
| ComplianceEffects.SetMinHoldEffect | contracts/compliance/src/lib.rs:1220-1244 | only that holder's period changes, to the one given |
| ComplianceEffects.RecordAcquisitionEffect | contracts/compliance/src/lib.rs:1280-1295 | the first acquisition is recorded at its ledger, a later one changes nothing |
| ComplianceEffects.HoldingPeriodExact | contracts/compliance/src/lib.rs:556-586 | after period n and acquisition at f, whatever else is called, a cleared holder passes exactly from f + n (at most u64::MAX) on |
| CompliancePruneRuns.PermanentNeverEnds | contracts/compliance/src/lib.rs:930-937 | with more entries than the bound that never expire, no prunes at any ledgers end in a return of 0 |
| CompliancePruneRuns.PruningOverTime | contracts/compliance/src/lib.rs:930-937 | at ledgers that never go back: a call returns 0 only at a ledger where the first list converges, and from such a ledger on one of the next calls does |
| System.GateIsCheck | contracts/asset-token/src/lib.rs:1155-1157 | the token sees exactly what a check at the compliance contract answers now |
| System.TransferThroughGate | contracts/asset-token/src/lib.rs:303-348 | token and compliance together: a transfer goes through exactly if signed, unpaused, funded and passed on both sides, and then moves the amount |
| System.StepEffect | contracts/asset-token/src/lib.rs:1155-1157 | a call changes its own contract alone; the passing of ledgers changes nothing else |
| System.ExpiryShutsOut | contracts/compliance/src/lib.rs:546-552 | a holder is shut out once the ledger of its record's expiry has come |
| System.DeniedHolderIsFrozen | contracts/asset-token/src/lib.rs:1155-1157 | token and compliance together: while the gate pointed at denies an address its balance is constant |
| System.ShutOutHolderIsFrozen | contracts/compliance/src/lib.rs:391-501 | from suspension, removal or expiry until an approval, reinstatement or new gate commits, no calls move the balance, failing attempts at those included |
| System.SuspensionShutsOut | contracts/compliance/src/lib.rs:412-501 | a committed suspension or removal denies at once |
| DividendContract.Contract.TotalEligible | contracts/dividend/src/lib.rs:361-381 | the loop with its seen-set returns the total of the list or its first error |
| DividendContract.Contract.CreateDistributionDeadline | contracts/dividend/src/lib.rs:327-437 | validates before pulling funds, then escrows, freezes the list and indexes the id |
| DividendContract.Contract.SnapshotBalance | contracts/dividend/src/lib.rs:861-873 | the scan returns the first entry's balance, or 0 |
| DividendContract.Contract.ReadClaimable | contracts/dividend/src/lib.rs:481-501 | zero once claimed, unlisted or without supply; otherwise the floored share or an overflow error |
| DividendContract.Contract.Claim | contracts/dividend/src/lib.rs:540-601 | flags, pays, counts and perhaps closes, in the code's order of writes |
| DividendContract.Contract.ReclaimUnclaimed | contracts/dividend/src/lib.rs:635-680 | after the deadline pays the remainder to the admin and closes |
| DividendContract.Contract.CancelDistribution | contracts/dividend/src/lib.rs:707-754 | before any claim returns the whole escrow and closes as cancelled |
| DividendContract.Contract.GetDistributionsForAsset | contracts/dividend/src/lib.rs:792-814 | the records of the indexed ids, in order |
| DividendContract.Contract.Invoke | contracts/dividend/src/lib.rs:509-512 | a failing call, after the flag or a payment is written, leaves everything as it was |
| DividendEffects.PayExact | contracts/dividend/src/lib.rs:383-384 | a payment moves exactly the amount from payer to payee and no other holding |
| DividendEffects.ValidateExact | contracts/dividend/src/lib.rs:361-381 | a list is refused exactly if it is not fair, with the error of the first entry that spoils it |
| DividendEffects.CreateEffect | contracts/dividend/src/lib.rs:327-437 | in reachable states: the refusals in order; the record, snapshot and sum are the ones given, and exactly the total moves into escrow |
| DividendEffects.DeadlineGoverns | contracts/dividend/src/lib.rs:540-680 | whatever happens in between: no claim after the deadline given at creation, and the admin can reclaim exactly after it |
| DividendEffects.ClaimEffect | contracts/dividend/src/lib.rs:540-601 | in reachable states: the refusals in order; exactly the share goes to the holder, and flag, record and snapshot follow |
| DividendEffects.ClaimableEffect | contracts/dividend/src/lib.rs:481-501 | in reachable states: the answer for unknown, claimed, closed, uncomputable and open |
| DividendEffects.ReclaimEffect | contracts/dividend/src/lib.rs:635-680 | in reachable states: the refusals in order; exactly what is unclaimed goes to the admin who asks, and is returned |
| DividendEffects.CancelEffect | contracts/dividend/src/lib.rs:707-754 | in reachable states: the refusals in order; exactly the total goes to the admin who asks, and the record is closed as cancelled |
| DividendEffects.ListedExact | contracts/dividend/src/lib.rs:792-814 | the records of stored ids, one for each, in order |
| DividendShares.ValidateIff | contracts/dividend/src/lib.rs:361-381 | accepted exactly if no balance is negative, no address repeats and the total fits i128 |
| DividendShares.DustBound | contracts/dividend/src/lib.rs:455-463 | shares never exceed the total and leave less than one unit per holder with a positive balance |
| DividendShares.DustBoundIff | contracts/dividend/src/lib.rs:455-463 | total less the sum of the floored shares is within N - 1 exactly if the snapshot sum is positive or the amount is that small |
| DividendDust.EscrowKeepsStranded | contracts/dividend/src/lib.rs:481-501 | in every reachable state an open distribution keeps at least the total less the shares that can be paid, and exactly that once no claim signed by others can succeed |
| DividendDust.DocumentedDustStaysIff | contracts/dividend/src/lib.rs:455-463 | once no claim can succeed the documented dust is what stays, exactly if everybody with a positive share can be paid; then less than one unit per positive holder |
| DividendDust.DocumentedBoundStaysIff | contracts/dividend/src/lib.rs:455-463 | once no claim can succeed at most N - 1 units stay exactly if dust and unpayable shares, computed from the arguments, come to no more |
| DividendDust.SmallUnfitShareWithinBound | contracts/dividend/src/lib.rs:494-500 | a list with an uncomputable share that stays within the bound: the products fitting is not necessary for it |
| DividendDust.LessThanOneUnitEachIff | contracts/dividend/src/lib.rs:455-463 | each holder can be paid to within one unit of its exact share exactly if everybody with a positive share can be paid |
| DividendDust.StrandedIsDustIff | contracts/dividend/src/lib.rs:494-500 | on the arguments of a creation: only the dust is stranded exactly if everybody with a positive share can be paid |
| DividendDust.AllCanBePaidIff | contracts/dividend/src/lib.rs:361-381 | everybody with a positive share can be paid exactly if every product fits i128 and the contract itself is due nothing |
| DividendDust.AllClaimedLeavesDust | contracts/dividend/src/lib.rs:455-463 | once every holder with a positive share has claimed, the dust is left, less than one unit per positive holder |
| DividendDust.OverflowingHolderStrandsAll | contracts/dividend/src/lib.rs:494-500 | a run whose documented dust is zero and in which no claim ever succeeds and i128::MAX stays |
| DividendDust.SelfListedStrandsHalf | contracts/dividend/src/lib.rs:540-541 | the contract listed for half of 10: dust zero and every product fits, but 5 stay as long as it is open, however the run goes on |
| DividendRuns.EveryHolderPaidItsShareOnce | contracts/dividend/src/lib.rs:540-601 | in every reachable state each address was paid its share if it has claimed, and nothing otherwise |
| DividendRuns.InterleavingIrrelevant | contracts/dividend/src/lib.rs:540-601 | runs with anything in between that end with the same claimers, nothing returned, agree on record, snapshot and payouts |
| DividendRuns.EntitlementLasts | contracts/dividend/src/lib.rs:540-601 | whatever happens in between, a holder that can be paid can claim until it has, until a return, or until the deadline |
| DividendRuns.StrandedForever | contracts/dividend/src/lib.rs:635-754 | with no deadline and one claim made, what is stranded stays open and in escrow after every further run |
| DividendRuns.SelfListedHalfIsGone | contracts/dividend/src/lib.rs:540-754 | a run of three calls after which half of the amount is gone for good |
| DividendShares.ClaimAddsShare | contracts/dividend/src/lib.rs:562-577 | one more claim adds exactly the claimer's share, because holders are distinct |
| DividendShares.AllClaimedLeavesNothing | contracts/dividend/src/lib.rs:581-590 | if the claimed shares are all the shares, whoever has not claimed has none |
| DividendProofs.ClaimableIsShare | contracts/dividend/src/lib.rs:481-501 | in an open distribution the figure is the floored share, failing only if the product leaves i128 |
| DividendProofs.ClaimKeepsAccount | contracts/dividend/src/lib.rs:540-601 | never over-distributes or overflows its total, and keeps the account |
| DividendProofs.ReclaimKeepsAccount | contracts/dividend/src/lib.rs:635-680 | reclaiming keeps the account |
| DividendProofs.CancelKeepsAccount | contracts/dividend/src/lib.rs:707-754 | cancelling keeps the account |
| DividendProofs.CreateOpensAccount | contracts/dividend/src/lib.rs:383-437 | a creation opens an account with nothing paid or returned |
| DividendProofs.RunKeepsInv | contracts/dividend/src/lib.rs:327-754 | every account is kept over every run |
| DividendEscrow.EscrowSolvent | contracts/dividend/src/lib.rs:383-754 | in every reachable state the contract holds, per token, what open distributions owe plus what others gave it |
| DividendEscrow.EveryDistributionBalances | contracts/dividend/src/lib.rs:383-754 | total is paid plus returned plus escrowed; paid is the sum of the shares of exactly those who claimed |
| DividendEscrow.ClaimCommitsIff | contracts/dividend/src/lib.rs:503-601 | a claim succeeds exactly for a signing, unpaid holder of a positive computable share of an open distribution in time |
| DividendEscrow.ReclaimCommitsIff | contracts/dividend/src/lib.rs:603-680 | a reclaim succeeds exactly for the admin, after a set deadline, while open |
| DividendEscrow.CancelCommitsIff | contracts/dividend/src/lib.rs:682-754 | a cancellation succeeds exactly for the admin, while open and unclaimed |
| DividendEscrow.NewDistributionIsClaimable | contracts/dividend/src/lib.rs:337-345 | until the deadline every holder of a positive computable share can claim from a new distribution |
| DividendEscrow.ClosedByClaimsStripsNobody | contracts/dividend/src/lib.rs:581-590 | a distribution closed by claims leaves every unclaimed share at zero |
| DividendEscrow.EmptySnapshotIsAccepted | contracts/dividend/src/lib.rs:346-356 | a list with only a zero balance is accepted |
| DividendEscrow.EmptySnapshotPaysNobody | contracts/dividend/src/lib.rs:481-489 | no claim on it ever succeeds |
| DividendEscrow.IndexListsDistributions | contracts/dividend/src/lib.rs:422-437 | in every reachable state the per-asset index lists exactly that asset's ids, ascending |
| DividendClaims.EntitledClaimsAllCommit | contracts/dividend/src/lib.rs:540-601 | claims by entitled holders, each in its own transaction at its own ledger, all commit, and the state depends only on who claimed |
| DividendClaims.ClaimOrderIrrelevant | contracts/dividend/src/lib.rs:540-601 | any two orders of the same holders, at whatever ledgers, lead to the same state but for the order of events |
| RegistryContract.Contract.RegisterAsset | contracts/registry/src/lib.rs:190-294 | entry, token index, counters, both indexes and TVL in the code's order, or the first error |
| RegistryContract.Contract.DeactivateAsset | contracts/registry/src/lib.rs:507-550 | takes an active entry out of count and TVL; otherwise does nothing |
| RegistryContract.Contract.ReactivateAsset | contracts/registry/src/lib.rs:651-693 | puts an inactive entry back into count and TVL; otherwise does nothing |
| RegistryContract.Contract.UpdateAssetValuation | contracts/registry/src/lib.rs:577-618 | rewrites the valuation, and TVL only while active |
| RegistryContract.Contract.Invoke | contracts/registry/src/lib.rs:283-287 | an overflow after the writes leaves the registry as it was |
| RegistryContract.Contract.GetAllAssets | contracts/registry/src/lib.rs:464-483 | the slice of all entries from the start id, at most 100 |
| RegistryContract.Contract.GetAssetsPage | contracts/registry/src/lib.rs:800-836 | the slice of all entries at the zero-based position; page size 0 means 100 |
| RegistryContract.Contract.GetActiveAssetsPage | contracts/registry/src/lib.rs:856-896 | the scan returns the slice of the filtered list |
| RegistryContract.Contract.FetchAssetsPage | contracts/registry/src/lib.rs:1064-1085 | the entries of a slice of ids, with saturating bounds |
| RegistryContract.Contract.GetPageByKey | contracts/registry/src/lib.rs:373-439 | the page of an index, also when page * size saturates |
| RegistryContract.Contract.GetByKey | contracts/registry/src/lib.rs:347-412 | the first 100 of an index |
| RegistryEffects.RegisterEffect | contracts/registry/src/lib.rs:190-300 | in reachable states: the refusals in order; one new entry with the fields given under the next id, the others unchanged, TVL up by its valuation |
| RegistryEffects.DeactivateEffect | contracts/registry/src/lib.rs:507-550 | in reachable states: the refusals; only the entry's flag changes, TVL falls by its valuation and the count by one |
| RegistryEffects.ReactivateEffect | contracts/registry/src/lib.rs:651-693 | in reachable states: the refusals; only the entry's flag changes, TVL grows by its valuation and the count by one |
| RegistryEffects.UpdateValuationEffect | contracts/registry/src/lib.rs:577-618 | in reachable states: the refusals; the entry has the new valuation, and TVL moves by the difference exactly if it is active |
| RegistryEffects.EntriesByActivityExact | contracts/registry/src/lib.rs:856-896 | the filtered list: exactly the entries with the flag, once each, ascending |
| RegistryEffects.EntriesExact | contracts/registry/src/lib.rs:464-483 | the list of all entries: position k holds id k + 1 |
| RegistryEffects.ResolveExact | contracts/registry/src/lib.rs:1064-1085 | the entries of stored ids, one for each, in order |
| Paging.SliceExact | contracts/registry/src/lib.rs:1064-1085 | a page has as many elements as there are from its offset up to its limit, each at its place |
| Soroban.RoleEffect | contracts/registry/src/lib.rs:926-1005 | only the admin nominates and withdraws, and the role moves only to the signing nominee |
| RegistryProofs.IdsWithExact | contracts/registry/src/lib.rs:361-364 | the recomputed index is exactly the matching ids, ascending |
| RegistryProofs.RegisterKeepsInv | contracts/registry/src/lib.rs:190-294 | registration keeps aggregates, indexes and the token index equal to recomputation |
| RegistryProofs.DeactivateKeepsInv | contracts/registry/src/lib.rs:507-550 | the checked and saturating subtractions never fire |
| RegistryProofs.ReactivateKeepsInv | contracts/registry/src/lib.rs:651-693 | the count's increment never traps |
| RegistryProofs.UpdateKeepsInv | contracts/registry/src/lib.rs:577-618 | an update keeps TVL equal to recomputation |
| RegistryProofs.RunKeepsInv | contracts/registry/src/lib.rs:190-693 | over every run TVL, active count and all indexes equal recomputation |
| RegistryProofs.RegistryIsConsistent | contracts/registry/src/lib.rs:190-693 | in every reachable state: the same, aggregates not negative, each index exactly the ids with its key, ascending |
| RegistryProofs.ReactivateUndoesDeactivate | contracts/registry/src/lib.rs:620-693 | deactivate then reactivate restores the registry but for the log |
| RegistryProofs.TokenContractInjective | contracts/registry/src/lib.rs:212-218 | one token contract has one id |
| RegistryProofs.KeyPagesTile | contracts/registry/src/lib.rs:352-394 | pages 0, 1, 2, ... of an index concatenate to its entries, without gap or repeat |
| RegistryProofs.FirstPageIsAllIff | contracts/registry/src/lib.rs:347-412 | the unpaged query returns everything exactly if there are at most 100 |

## Left out

- Storage lifetime: TTL extension, archival and resource cost; entries are permanent here.
- Signatures: `require_auth` is membership in the set of signers of the invocation; a missing one is `HostTrap`.
- Error numbers: the four error enums are one datatype without codes.
- AssetToken.ValidParticulars: lengths count characters, not the bytes of an encoding.
- AssetToken.Deliver: a gate address that is not a contract makes the real call trap; here it denies, so the call fails with a different error.
- Dividend.Pay: the payment token either moves exactly the amount or traps; its other refusals are the parameter `payable`, and balances are not bounded by i128.
- Dividend.CreateOutcome: `total_supply` and `admin` of the asset token are parameters of the invocation; `create_distribution` is the case of deadline 0.
- DividendEscrow.EscrowSolvent: assumes that the escrow contract's own address never signs a call into the contract.
- ComplianceContract.Contract.PrunePages: does not model the panic of `page_idx + 1` when a bounded prune stops on page u32::MAX, which takes more than 858 billion appends.
- ComplianceContract.Contract.PruneExpired: the same.
- System.Step: the events that a gate publishes when a token call asks it (`Compliance.GateEvents`) are not added to the gate's log there.
- RegistryContract.Contract.GetPageByKey: takes from the host that a vector has at most u32::MAX elements.
- Registry.ValidAssetType: membership in the list of types, not the byte loop.
- Admin handover: proposing, cancelling and accepting are modelled, events included, so that runs include them; beyond the effect of each call nothing is proved about them.
- Plain getters, version numbers and `get_total_asset_count`.
