# Vector chain: verified models of the application's own state changes

Most of the repository wires Cosmos SDK modules together. This project models the parts whose state changes, loops and
recursion are written in the repository itself, and proves what they guarantee for every input.

| file | models |
|---|---|
| `Money.dfy` | decimal and whole amounts per denomination, truncation |
| `Distribution.dfy` | the distribution stores, the keeper operations on them, and the export's loops as functions of the store |
| `ReferenceCounts.dfy` | exact reference counting of historical rewards, kept by every operation |
| `Funds.dfy` | where the money is, which operations conserve it, and what a dropped error loses |
| `Withdrawals.dfy` | the two withdrawal loops: exactly when they run through, and what holds at every point of a run |
| `KeeperSteps.dfy` | what each library operation does to every field of the stores, denomination by denomination |
| `Restart.dfy` | wiping and re-creating the records; when the whole reset completes, and the closed form it ends in |
| `StakeCheck.dfy` | the condition under which a reset at height 0 completes, and a well-formed store on which it panics |
| `Losses.dfy` | exactly when a completed reset conserves funds although commission errors are dropped, and a store on which it does not |
| `Guarantees.dfy` | what the exported store guarantees: money, payouts and their bounds, reference counts |
| `Idempotence.dfy` | a second reset completes and changes nothing |
| `DistributionKeeper.dfy` | the keeper as the object the export calls |
| `Staking.dfy`, `Export.dfy` | staking and slashing records; `prepForZeroHeightGenesis` and `ExportAppStateAndValidators` loop by loop |
| `CoinLists.dfy` | coins as sorted lists, canonical addition, total supply |
| `GenesisBuilder.dfy` | `GenesisStateWithValSet` |
| `Layout.dfy`, `Testnet.dfy` | names, paths, ports and addresses of a testnet; `initTestnetFiles`, `initGenFiles`, `collectGenFiles` |
| `MsgFilter.dfy` | the nested message filter and its chaining |
| `Upgrades.dfy` | upgrade registration |

The loops of the Go code are methods on classes whose fields are the stores they rewrite. Each is proved against a
function of the old state or against the property itself, and the properties of those functions are lemmas.

## How to read the export's main results

`Distribution.Reset` is the distribution phase (withdraw commissions, withdraw rewards, wipe, re-create validators,
re-create delegations) on store values; `Export.ChainApp.ResetDistribution` runs exactly that on the keeper's fields.
`WellFormed` is the state the export is assumed to start from. Part of it is what asserting the chain's invariants
(app/export.go:64) checks: the total reference count, non-negative outstanding rewards, and a module account that holds the
whole coins of everything accounted for; of the last only one direction is needed (`Covered`), and where the equality matters
(`Solvent`) the result says so. The rest is assumed in addition, as what the keepers maintain: staking lists are keyed stores
and every distribution record belongs to one of them, every single record's count is exact (`Exact`, not only the total),
cumulative ratios do not decrease over a validator's records (`Accrued`), and commission and undistributed rewards are part of
what is outstanding (`Backed`). Any addresses may be blocked by the bank. `WellFormedStoreExists` shows that all of this can be
met for every staking state.

From there the reset completes if and only if every delegation passes the stake check of the reward calculation and the bank
refuses no delegator what it is due (`Restart.ResetOutcome`); where the bank pays the delegators only the stake check decides
(`Withdrawals.ReceivingCompletesIff`). When it completes, the accounts lose, per denomination, the whole coins of commission of
the validators that the bank does not pay, and nothing else; so funds are conserved if and only if there are none
(`Losses.ResetConservesIff`). The final records have one closed form whatever they were before, and running the reset again
completes and is the identity.

## Modelling assumptions (library code)

The keepers are cosmos-sdk v0.50.11 (go.mod:38), which is not part of the repository. The operations below are written
down as assumed; `KeeperSteps.dfy` proves of each what it does to every field of the stores:

- closing a period (`IncrementPeriod`) drops one reference from the last closed record (deleting it at zero), stores a new
  record with count 1 and advances the period; a validator without tokens sends its current rewards to the community pool;
- adding a reference panics when the count is above 2, dropping one panics at 0;
- a commission withdrawal fails when nothing is due, takes the whole coins out of commission and outstanding, and only then
  asks the bank to send them; the bank refuses a blocked recipient and an account that is short;
- the reward calculation yields nothing for a delegation that started at the context height; otherwise it applies the slash
  events after the starting height, which are none when the context height is not past it, and panics when the stake it ends
  with exceeds what the shares are worth by more than 3 units of the last decimal (`STAKE_MARGIN`), or when the
  cumulative ratio went down;
- a reward withdrawal closes the period, caps the calculated reward by what is outstanding, sends the whole coins, gives the
  fraction to the community pool, releases the old starting record and starts the delegation anew at the context height;
- re-creating a validator sets record 0 with count 1, period 1, and zero commission and outstanding rewards;
- the validator set update panics on a jailed or missing validator among those it looks at through the power index, which
  storing a validator leaves as it is; what it does otherwise, failure included, is an arbitrary function (`finish`);
- `Coins.Add` panics on an unsorted operand and otherwise yields the one canonical list with the summed amounts.

Where the reward calculation does not panic, its result is an arbitrary function of the store, the delegation and the context
height (`View.reward`). Stakes, what slash events leave of them (`View.afterSlashes`) and tokens are likewise given.

## Where the code and its comments or help texts differ

The model follows the code.

- The context height is set to 0 before the withdrawals (app/export.go:66-68), not only before the records are re-created.
  Two consequences. No slash event counts, so a delegation that started at a height above 0 and whose validator was slashed
  since carries more stake than its shares are worth: the withdrawal at app/export.go:116 panics, although the invariants
  asserted before, at the real height, hold. `StakeCheck.SlashedStorePanicsAtZero` is such a store, and
  `StakeCheck.ResetAtZeroCompletesIff` the exact condition. And a delegation that started at height 0 is paid nothing; what it
  earned goes to the community pool (`StartedAtExportHeightIsUnpaid`).
- The error of a commission withdrawal is dropped (app/export.go:95). If the bank refused the send, the records are already
  reduced: the coins are neither paid nor owed nor pooled, and the account keeps them, so that the exported state no longer
  satisfies the module-account invariant asserted at app/export.go:64. `Losses.DroppedErrorCanLose` is a store that satisfies
  every invariant and loses a coin, `Losses.ResetConservesIff` the exact condition.
- A validator is jailed in its own record only (app/export.go:223-228); the power index still lists it. With a non-empty
  allow-list that lacks one of the validators the set update looks at, app/export.go:238 therefore panics
  (`Staking.UpdatePanicsIffOneIsNotSpared`).
- app/export.go:210 speaks of validators by power; the loop iterates over validator keys in reverse address order.
- A string on the allow-list spares a validator only in its canonical spelling; other spellings that decode pass the check
  and leave the validator to be jailed (`SparedIffCanonicallyListed`), an upper-case one for instance
  (`UpperCaseListingJails`).
- A daemon home that leads out of the node's directory merges the nodes' directories (`Layout.DirsDistinctIff`). The genesis is
  still the same for all; the settings left are those of the last node.
- The help text of `--starting-ip-address` names port 46656; the memo carries 26656, or 16656 plus the index on one host.

## Model

| member | source | states |
|---|---|---|
| ReferenceCounts.AdvancedKeepsCounts | app/export.go:164-167 | closing a period of any validator keeps every reference count exact and leaves the new record with count 1 |
| ReferenceCounts.ReleasedKeepsCounts | app/export.go:116-118 | giving up a delegation's start keeps every count exact for the remaining delegations |
| ReferenceCounts.StartedKeepsCounts | app/export.go:169-172 | starting a delegation keeps every count exact with the delegation added |
| ReferenceCounts.ReferenceCount | app/export.go:121-173 | exact counts total one plus delegations plus slash events per validator, and all records are below its current period |
| ReferenceCounts.StartIsAlive | app/export.go:102-119 | a delegation in force starts from a record that exists and is referenced |
| Funds.CommissionConserves | app/export.go:95 | a commission withdrawal whose error is dropped goes on if and only if the whole coins of commission are outstanding; then it conserves funds if and only if they are none, or the recipient is not blocked and the account holds them |
| Funds.SendFailedLoses | app/export.go:95 | when the bank will not pay, the send fails after the records were reduced, and some denomination is gone from the accounts |
| Funds.SettleConserves | app/export.go:116-118 | splitting a reward into coins sent and fraction pooled conserves pool plus outstanding plus payouts, and bank money |
| Funds.CoveredPays | app/export.go:116-118 | an account that covers the whole coins of what is accounted for can pay the whole part of anything owed |
| Funds.SolventKept | app/export.go:87-154 | whatever conserves funds keeps the module-account invariant |
| Funds.IncrementConserves | app/export.go:164-167 | closing a period conserves funds and pays nobody, also for validators without tokens |
| Funds.DonateConserves | app/export.go:133-149 | donating a validator's outstanding rewards and re-creating it conserves funds |
| Withdrawals.CommissionRun | app/export.go:89-100 | over any distinct validators of the store the commission loop does not panic and keeps the store well-formed; the accounts lose the whole coins of commission of the validators that the bank does not pay, and nothing else |
| Withdrawals.CommissionSent | app/export.go:95 | from an account that covers what is accounted for, a validator that is not blocked is always paid its commission, and funds are conserved |
| Withdrawals.CommissionLoses | app/export.go:95 | for any validator, dropping the error loses exactly the whole coins of commission it is not paid |
| Withdrawals.CalculateRuns | app/export.go:116 | with exact counts and non-decreasing ratios the only panic of the reward calculation is the stake check |
| KeeperSteps.ClosesPeriod | app/export.go:164-167 | a period closes exactly when the last record is referenced and a validator without tokens owes its rewards; every record, ratio and amount afterwards |
| KeeperSteps.StartsDelegation | app/export.go:169-172 | a start takes a reference to the last record, unless that has three already, and records stake and height |
| KeeperSteps.EndsDelegation | app/export.go:116-118 | the end of a delegation gives its reference back, and fails exactly when there is none |
| KeeperSteps.RecreatesValidator | app/export.go:133-149 | outstanding rewards go to the pool and the validator's records start over; nothing else changes |
| KeeperSteps.WithdrawsCommission | app/export.go:95 | the four outcomes by what can be read off the store, and the whole store after each |
| KeeperSteps.CalculationPanics | app/export.go:116 | the calculation panics exactly on an excess of stake or a ratio that went down, and never for a start at the context height |
| KeeperSteps.WithdrawsReward | app/export.go:116-118 | a completed withdrawal pays the delegator the whole coins of the lesser of reward and what is owed, sends the fraction to the pool, reduces what is owed by both and starts the delegation anew |
| KeeperSteps.RedelegatesOnlyToStored | app/export.go:164-172 | the two hooks run exactly for a stored validator whose period closes and whose record can be referenced |
| Withdrawals.RewardStep | app/export.go:108-119 | from any point of a run one reward withdrawal completes if and only if its delegation passes the stake check and the bank does not refuse what is due in its turn; then it keeps every run invariant and touches only its own records |
| Withdrawals.RewardRun | app/export.go:102-119 | a list of withdrawals completes if and only if each of its delegations passes the stake check in the store it starts from and none is refused in its turn; then the invariants hold and funds are conserved |
| Withdrawals.ReceivingCompletesIff | app/export.go:89-119 | where every delegator can be paid, or its delegation started at the context height, the withdrawals run through if and only if every delegation passes the stake check |
| Withdrawals.StartsAliveThroughout | app/export.go:89-119 | the withdrawals reach the point after the first `i` delegations if and only if those pass the stake check and are not refused, and at every point reached every delegation still starts from a live record |
| Withdrawals.StartedAtExportHeightIsUnpaid | app/export.go:66-119 | a delegation that started at the height the withdrawals run at does not stop them and is paid nothing in its turn |
| Restart.OneMoreFresh | app/export.go:156-173 | closing a period and starting a delegation takes the records from the closed form for a list of delegations to that for one more |
| Restart.RedelegateRun | app/export.go:156-173 | from re-created validators the loop over delegations never panics and ends in the closed form: counts 1,...,1,2, start of each delegation at its rank and the context height |
| Restart.ValidatorRun | app/export.go:127-154 | every validator ends with record 0, period 1 and nothing owed; only money within the store moved, conserving funds |
| Restart.RestartOutcome | app/export.go:121-173 | wiping and re-creating yields the closed form and exact counts from any keyed store |
| Restart.ResetOutcome | app/export.go:87-173 | from a well-formed store the whole phase completes if and only if every delegation passes the stake check and no reward is refused; then the accounts lose exactly the unpaid commissions, and it ends well-formed in the closed form |
| Losses.ResetConservesIff | app/export.go:87-173 | a completed reset conserves funds, and keeps the module-account invariant, if and only if no validator that the bank does not pay is owed a whole coin of commission |
| Losses.DroppedErrorCanLose | app/export.go:95 | a store that satisfies every invariant, on which the reset completes and a coin of commission is neither paid nor owed nor pooled |
| StakeCheck.ResetAtZeroCompletesIff | app/export.go:66-119 | at height 0 the reset completes only if every delegation started at height 0 or with no more stake, up to the margin, than its shares are worth now; where the delegators can be paid, that is also enough |
| StakeCheck.SlashedStorePanicsAtZero | app/export.go:66-119 | a store that satisfies every invariant, with a slashed validator, on which the reset completes at the real height and panics at height 0 |
| Restart.WellFormedStoreExists | app/export.go:63-64 | the assumed starting state, module-account invariant included, exists for every staking state |
| Guarantees.EverythingUnpaidIsPooled | app/export.go:87-154 | after a completed reset nobody is owed anything, the community pool holds exactly what was accounted for minus what was paid and what was lost, and the account holds the whole coins of the pool and what was lost |
| Guarantees.ResetReferences | app/export.go:121-173 | after a completed reset counts total one plus delegations per validator, no slash events remain, every delegation starts alive at the context height |
| Guarantees.ResetRestarts | app/export.go:121-173 | after a completed reset exactly the listed delegations are recorded, each at the context height with its stake, from a record that exists; nothing is owed and no slash event is left |
| Guarantees.DelegatorsPaidFromTheirValidator | app/export.go:87-119 | per validator and denomination, its commission is taken in whole coins, paid unless the bank does not pay it, and its delegators together get no more than the rest of what that validator owed |
| Guarantees.PayoutsAreExact | app/export.go:87-119 | the payouts are, in store order, each payable validator's whole coins of commission, then for each delegation the whole coins of the lesser of its calculated reward and what its validator owes in its turn, and nothing else; the amounts fit what each validator owes beyond its commission, and are zero for unpaid delegators and for delegations that started at the context height |
| Guarantees.RewardDueIsCapped | app/export.go:116 | what is due is, per denomination, the lesser of the calculated reward and what the validator owes, and nothing at the starting height |
| Idempotence.ResetIdempotent | app/export.go:87-173 | after a completed reset a second one over the same staking lists completes and returns the identical store, whatever rewards would be calculated and whatever the stakes are worth by then |
| Idempotence.RestartedCalculable | app/export.go:156-173 | in a store just restarted every delegation passes the stake check at the same height and is due nothing, whatever the stakes are worth |
| DistributionKeeper.Keeper.WithdrawValidatorCommission | app/export.go:95 | the four outcomes of a commission withdrawal on the keeper's fields |
| DistributionKeeper.Keeper.WithdrawDelegationRewards | app/export.go:116-118 | a reward withdrawal on the keeper's fields, or a panic |
| DistributionKeeper.Keeper.AfterValidatorCreated | app/export.go:147-149 | a validator's records re-created |
| DistributionKeeper.Keeper.BeforeDelegationCreated | app/export.go:164-167 | the validator's period closed, or a panic |
| DistributionKeeper.Keeper.AfterDelegationModified | app/export.go:169-172 | the delegation started from the last closed period |
| Export.ChainApp.BuildAllowList | app/export.go:77-85 | the list is accepted if and only if every string decodes, and then holds exactly the listed strings |
| Export.ChainApp.WithdrawCommissions | app/export.go:89-100 | the loop over validators, errors dropped, panics reported |
| Export.ChainApp.WithdrawRewards | app/export.go:102-119 | the loop over delegations, stopping at the first panic |
| Export.ChainApp.ReinitValidator | app/export.go:134-150 | one validator: its scraps are added to the fee pool read and set back, then its records are created anew |
| Export.ChainApp.ReinitValidators | app/export.go:127-154 | the loop over all validators |
| Export.ChainApp.ReinitDelegation | app/export.go:164-172 | both hooks for one delegation, or a panic |
| Export.ChainApp.ReinitDelegations | app/export.go:156-173 | the loop over all delegations, stopping at the first panic |
| Export.ChainApp.ResetDistribution | app/export.go:87-173 | the six steps in order compute `Reset` |
| Export.ChainApp.ResetRedelegations | app/export.go:180-193 | every entry's creation height is 0, everything else, entry counts and keys unchanged |
| Export.ChainApp.ResetUnbondings | app/export.go:195-208 | the same for unbonding entries |
| Export.ChainApp.ResetValidators | app/export.go:210-231 | every stored validator has unbonding height 0 and its old status, tokens, shares and unbonding time, and is jailed if it was, or if the list is in force and lacks its canonical string; no panic when the index matches the store |
| Staking.ResetAllMeans | app/export.go:215-231 | the validators after the loop, field by field over those before |
| Staking.ValidatorsResetOnce | app/export.go:215-231 | the list and the validators before determine those after |
| Export.ChainApp.ResetStaking | app/export.go:178-231 | the three staking loops: entries zeroed, and every stored validator reset, field by field, by the list |
| Staking.StakingKeeper.ApplyAndReturnValidatorSetUpdates | app/export.go:238-241 | a panic on a jailed or missing validator in the power index, or an error, or the changed validators |
| Export.ChainApp.ResetSigningInfos | app/export.go:245-258 | every start height is 0, the other four fields unchanged |
| Export.ChainApp.ResetStakingAndSlashing | app/export.go:178-258 | the loops over staking, the validator set update and the loop over signing infos: panic, failure or completion as that update decides on validators reset field by field; entries and signing infos zeroed |
| Export.ChainApp.PrepForZeroHeightGenesis | app/export.go:60-259 | exits on the list exactly for an undecodable string, before any change; otherwise, from well-formed stores, is done if and only if the withdrawals at height 0 run through and the validator set update accepts the validators the loop leaves; then every delegation starts at height 0, nothing is owed, and the update was given every validator reset field by field |
| Export.ChainApp.ExportAppStateAndValidators | app/export.go:21-54 | from well-formed stores yields the height if and only if the preparation, where asked for, is done and the library calls succeed; a zero-height export leaves heights zeroed and delegations restarted, any other leaves the state untouched |
| Staking.JailedIff | app/export.go:72-85 | jailed afterwards if and only if jailed before, or the list is not empty and no string on it is the canonical spelling; so only the set of strings matters |
| Staking.JailingIsMonotone | app/export.go:223-225 | listing more strings never jails a validator the shorter list spared, and nobody is ever freed |
| Staking.SparedIffCanonicallyListed | app/export.go:79-85 | a validator named on the list is spared if and only if one entry is its canonical spelling |
| Staking.UpperCaseListingJails | app/export.go:79-85 | with a codec of two spellings, the upper-case listing of a validator decodes and jails it; the lower-case one spares it |
| Staking.UpdatePanicsIffOneIsNotSpared | app/export.go:215-241 | with no validator jailed before, the set update panics if and only if the list is in force and lacks the canonical spelling of a validator it looks at |
| CoinLists.CoalesceIsCanonical | cmd/vectord/testnet.go:426-428 | the sum of coin lists is strictly sorted, free of zeros and duplicates, and has the summed amounts |
| CoinLists.AddsUp | cmd/vectord/testnet.go:426-428 | addition panics exactly on an unsorted operand, and otherwise yields the valid list of the summed amounts |
| CoinLists.ValidIsUnique | cmd/vectord/testnet.go:426-428 | a valid coin list is determined by its amounts |
| CoinLists.SupplyIsTotal | app/test_helpers.go:421-425 | accumulation panics exactly on an unsorted balance, and otherwise is the valid list of per-denom totals |
| CoinLists.SupplyIgnoresOrder | cmd/vectord/testnet.go:425-428 | the supply does not depend on the order of the balances |
| CoinLists.HeldIgnoresOrder | cmd/vectord/testnet.go:425-428 | what an account holds over all balances does not depend on their order |
| CoinLists.SortSorts | cmd/vectord/testnet.go:334 | sorting yields a sorted permutation |
| CoinLists.AccumulateSupply | app/test_helpers.go:421-425 | the loop computes that supply, or panics |
| GenesisBuilder.GenesisState.BuildStaking | app/test_helpers.go:367-399 | one bonded validator with its own key and one delegation from the first account per consensus validator, field by field; exact error and panic conditions |
| GenesisBuilder.GenesisState.BuildSigningInfos | app/test_helpers.go:405-411 | one signing info per consensus validator, filled by index |
| GenesisBuilder.GenesisState.WithValSet | app/test_helpers.go:356-432 | exactly when the genesis is built, what its four sections hold record by record, and that all other sections are untouched |
| GenesisBuilder.SectionsAgree | app/test_helpers.go:367-419 | over all balances the pool account holds exactly the validators' tokens if and only if no given balance pays it in the bond denomination; each validator is bonded with matching shares, one delegation and one signing info if and only if no address is repeated |
| GenesisBuilder.SupplyCountsBondOnce | app/test_helpers.go:415-425 | the supply is the total of the balances given plus the bonded tokens once |
| Layout.DecimalInjective | cmd/vectord/testnet.go:266 | decimal names are injective over all indices |
| Layout.DecimalRoundTrip | cmd/vectord/testnet.go:266 | the decimal index in a name reads back as the index; digits only, no leading zero |
| Layout.SplitRoundTrip | cmd/vectord/testnet.go:266-268 | splitting a path at its slashes loses nothing |
| Layout.CleanTidies | cmd/vectord/testnet.go:266-268 | cleaning removes empty components and dots, keeps two dots only in front of a relative path, and leaves a clean path alone |
| Layout.LayoutPaths | cmd/vectord/testnet.go:266-268 | every file of a node, component by component before cleaning |
| Layout.NodeFilesUnder | cmd/vectord/testnet.go:278-291 | the clean-up after a failed set-up reaches a node's files if prefix and home do not lead above the output directory |
| Layout.PathsDiffer | cmd/vectord/testnet.go:266-268 | with paths joined and cleaned, two nodes have directories, and files of each kind, of their own if and only if the daemon home never leads above the node's directory |
| Layout.DirsDistinctIff | cmd/vectord/testnet.go:266-267 | all directories are distinct if and only if there is only one node or the daemon home never leads above the node's directory |
| Layout.GenTxsDiffer | cmd/vectord/testnet.go:377 | no two nodes' genesis transactions share a file, whatever the prefix and the home are |
| Layout.KindsDiffer | cmd/vectord/testnet.go:377-382 | files of different kinds never share a path, in whatever directories |
| Layout.SingleHostPorts | cmd/vectord/testnet.go:247-275 | all ports of all services on one host are distinct if and only if there are at most 7566 nodes |
| Layout.CalculateIP | cmd/vectord/testnet.go:512-523 | the byte loop is addition modulo 256 on the last octet, the others unchanged; fails exactly on text that is no IPv4 address |
| Layout.AddressesDistinct | cmd/vectord/testnet.go:512-523 | node addresses are distinct if and only if there are at most 256 |
| Layout.EndpointsDistinct | cmd/vectord/testnet.go:283-295 | address and P2P port together are distinct if and only if on one host or at most 256 nodes |
| Testnet.GetIP | cmd/vectord/testnet.go:501-510 | the host's own address when none is given, otherwise the computed one |
| Testnet.InitGenFiles | cmd/vectord/testnet.go:402-444 | every listed file holds the same initial genesis, with the chain ID, accounts and balances handed in and their canonical sum, and fails exactly on an unsorted balance; no other file changes |
| Testnet.CollectGenFiles | cmd/vectord/testnet.go:446-499 | from equal initial files it succeeds exactly when collection does for each node on the genesis it reads, and then every file holds node 0's state at one time, each node's settings its own ports unless a later node shares its directory, and all other files are untouched |
| Testnet.CollectableIff | cmd/vectord/testnet.go:478-491 | nodes with directories of their own all collect from the initial genesis |
| Testnet.LayOutNodes | cmd/vectord/testnet.go:254-383 | the first loop: succeeds exactly when every node gets an address and keys, then records the genesis path, memo and own account and coins of every node, and its settings unless a later node shares its directory; after a failure nothing removable is left under the output directory |
| Testnet.InitTestnetFiles | cmd/vectord/testnet.go:219-400 | exact success condition; every node's genesis holds what node 0 collects from the genesis of this chain with the nodes' own accounts and coins, also when directories are shared; memos of every node, settings and ports of every node with a directory of its own; a failed set-up leaves nothing removable under the output directory |
| Testnet.MemoMatchesSettings | cmd/vectord/testnet.go:295 | the numbers of all ports of a node, its name and ID, and that the port in its memo is the port its settings listen on |
| Testnet.MemoAddress | cmd/vectord/testnet.go:283-295 | the address in a memo is the host's own, or the starting one with the index added modulo 256 to its last byte |
| Testnet.NodesHoldTheirCoins | cmd/vectord/testnet.go:326-335 | with distinct accounts, and balances only reordered, every node's account holds its own 500000000 stake and 1000000000 testtoken |
| Testnet.PeersDistinctIff | cmd/vectord/testnet.go:283-295 | no two memos name the same peer, if and only if on one host, or at most 256 nodes from a given starting address, or at most one node without one |
| Testnet.InitialSupply | cmd/vectord/testnet.go:327-334 | the initial genesis exists with the supply of all nodes' coins; without the sort accumulation panics |
| MsgFilter.RejectsIffSomeBad | app/decorators/msg_filter_template.go:37-59 | rejected if and only if some path through the nesting leads to a blocked name or an undecodable `MsgExec` |
| MsgFilter.FilterDecides | app/decorators/msg_filter_template.go:28-35 | a filter rejects at the context's height if and only if some path leads to a blocked name or an undecodable `MsgExec`, and hands anything else on untouched |
| MsgFilter.RejectsIffFlattenedBad | app/decorators/msg_filter_template.go:37-59 | the early-exit search equals flatten, then scan |
| MsgFilter.RejectionGrowsWithTheList | app/decorators/msg_filter_template.go:51-55 | rejection is monotone in the blocked list |
| MsgFilter.RejectionUnion | app/decorators/msg_filter_template.go:51-55 | two blocked lists together reject what either rejects |
| MsgFilter.RejectionDistributes | app/decorators/msg_filter_template.go:37-38 | rejection distributes over concatenated message lists |
| MsgFilter.WrappingHidesNothing | app/decorators/msg_filter_template.go:40-49 | wrapping in any number of `MsgExec` layers hides nothing, and adds a rejection only if `MsgExec` is blocked |
| MsgFilter.ChainIsOneFilter | app/decorators/msg_filter_template.go:22-35 | a non-empty chain of filters through `next` equals one filter with all blocked types, result and error included |
| MsgFilter.ChainDecides | app/decorators/msg_filter_template.go:22-35 | a chain rejects if and only if some path leads to a message that one of its filters blocks; anything else reaches its end |
| MsgFilter.ChainOrderIrrelevant | app/decorators/msg_filter_template.go:22-35 | order and repetition in the chain do not matter |
| Upgrades.ChainApp.RegisterUpgradeHandlers | app/upgrades.go:17-62 | a non-empty list is left alone, an empty one gets the one no-op upgrade of the version; the last duplicate's handler for every listed name; the first duplicate's store loader exactly when the height is not skipped and the name is listed; with unique names both come from the same upgrade |
| Upgrades.ChainApp.SetHandlers | app/upgrades.go:34-44 | every listed name gets a handler, that of its last occurrence; others keep theirs |
| Upgrades.ChainApp.SetLoader | app/upgrades.go:55-61 | the loader is that of the name's first occurrence, and is left alone if there is none |
| Upgrades.TiesAgreeIffUnique | app/upgrades.go:35-61 | handler and loader come from the same upgrade for every name if and only if no name is listed twice |
| Upgrades.ListSettles | app/upgrades.go:17-22 | after constructing the app any number of times a non-empty list is as it was, and an empty one holds the one no-op of the first version |

## Left out

- Restart.ResetOutcome: assumes `WellFormed`; asserting the invariants (app/export.go:64) is the crisis keeper's code and is not repeated.
- Export.ChainApp.PrepForZeroHeightGenesis: what the validator set update (app/export.go:238) does beyond refusing a jailed or missing validator is the arbitrary function `finish`, and closing the iterator (app/export.go:233-236) is assumed to succeed.
- Export.ChainApp.ExportAppStateAndValidators: module export, JSON encoding and validator writing (app/export.go:33-53) are library calls; whether they succeed is a parameter.
- DistributionKeeper.Keeper.WithdrawDelegationRewards: withdraw addresses are the owners themselves; the redirection of payouts is not modelled.
- The amount the reward calculation yields, the decimal arithmetic inside it, and overflow of 64-bit periods.
- Testnet.InitTestnetFiles: the key files, the seed files, and the keyring and signing errors that leave the files in place are not modelled; nor are two spellings of one directory, absolute and relative.
- The order in which `SanitizeGenesisBalances` puts balances: any permutation is allowed.
- App construction, ante handler assembly, module and store wiring, command-line plumbing, and the bodies of upgrade handlers: no loop or unbounded domain.
- Token transfers, rate limits, packet forwarding and token factory: implemented in libraries.
