# Astroport on Osmosis: what its contracts keep

A Dafny model of three contracts of Astroport on Osmosis, with proofs of what they promise over single
transactions, over sequences of calls and over whole runs.

**The pair** (`contracts/pair_concentrated`): a pool of two coins on the Osmosis DEX. `PoolTypes` holds its state and
the chain's ledger, `PoolSpec` says as functions what each transaction does, and `PoolContract.PairContract` is the
contract as an object that changes its storage step by step, each handler proved to make exactly the change `PoolSpec`
describes. What follows is proved in `PoolMessages`, `PoolSwaps`, `PoolTrades`, `PoolLiquidity` (what a transaction
does), `PoolPrices`, `PoolShares`, `PoolAccounts` (exactly when it is accepted, and the price state and every account
after it), `PoolRuns`, `PoolRecords` and `PoolFeed` (what holds over runs); `PoolExamples` holds two short histories in which an expectation fails. The curve (D, xcp, swap, offer, fees, price update, slippage guards, moving average) lives in libraries this repository only
calls. It is a record of arbitrary functions that may fail, so every theorem holds for every curve.

**The maker** (`contracts/maker`): one stored route step per denom, a walker with a shared cache, the multi-hop quote and
the collect messages. `MakerRoutes` defines the walk and what a route is, `MakerQuote` the quote, `MakerSpec` the entry
points; `MakerContract` holds the mutable `RoutesBuilder` and `Maker`; `MakerRuns` proves the invariants, and
`MakerAcceptance` exactly what is accepted, stored and refused.

**The factory** (`contracts/factory`): the pair index under sorted, concatenated byte keys, its paged listing, and
creation, reply and removal. `FactoryKeys` and `FactoryPages` treat keys and pages, `FactorySpec` the entry points and
whole transactions, `FactoryContract.Factory` is the mutable contract, `FactoryRuns` proves what holds over runs, and
`FactoryAcceptance` exactly what is accepted, changed, sent and refused.

A decimal is a natural number counting 10^-18; its products and quotients round down. Amounts are unbounded naturals.
A failed check, an underflow, a division by zero or a transfer, mint or burn of a zero amount, which the chain refuses,
is a transaction that reverts and leaves no trace.

Some expected properties do not hold of the code as written. Each has its exact condition here:

- The hop limit is not an invariant of the stored routes, because only updated keys are walked (`LimitCanBeExceeded`).
  An accepted update keeps it exactly when each key left alone still has hops enough for the new path of the first
  updated denom on its way (`LimitKeptIff`; over runs `LimitOverRunsIff`). That every key reaches ASTRO is always kept,
  but for renaming ASTRO, which keeps it exactly when no route is stored (`RenamingAstroIff`).
- Pair keys are not injective. Two pairs share a key exactly when they name the same assets or one is the other with
  bytes moved across the boundary between its sorted names (`PairKeysAgreeIff`; for lists of any length `KeysAgreeIff`),
  with the consequences of `CollidingPairs`.
- Walking the factory's pages can skip a pair whose key directly follows another (`PageWalkSkipExample`); the walk is
  complete for every page size exactly when no such key is registered (`PageWalkCompleteIff`), as on a chain whose denoms
  have no byte below 2 (`EveryPageWalkIsComplete`).
- After a swap the recorded balances can be wrong (`SelfPaymentExample`); they are right exactly when the payee is not
  the pair and no fee of the trade goes to the pair's own address (`SwapRecordsExactly`).
- A dispatched swap can leave its stored parameters behind (`ForeignPoolExample`); it consumes them exactly when POOL_ID
  names this pool (`DispatchConsumesParamsIff`). For the other case the factory's address has to announce an id that is
  not the pool's own, which the factory contract never does (`AnnouncedIdIsTrue`).
- The cooldown given to the maker at instantiation is checked and never stored; there is one exactly from the first
  accepted update that gives one (`InstantiatedCooldownIsDropped`).

## Model

| member | source | states |
|---|---|---|
| FixedPoint.RoundTrip | contracts/pair_concentrated/src/utils.rs:27-43 | converting a token amount to a decimal and back loses nothing |
| FixedPoint.Truncation | contracts/pair_concentrated/src/contract.rs:723-724 | truncation to token units drops less than one unit and never adds |
| Bank.SendMoves | contracts/pair_concentrated/tests/common/osmosis_ext.rs:200-214 | a transfer succeeds exactly when it is of a positive amount that the payer holds, moves that coin between the two accounts only (also when they coincide), and keeps every total |
| PoolMessages.PayEffect | contracts/pair_concentrated/src/contract.rs:752-764 | running any list of payments changes every account by what it is paid less what the pair pays, and keeps totals and supply |
| PoolSpec.PayoutFits | contracts/pair_concentrated/src/contract.rs:791-795 | the truncated proceeds and maker fee never exceed the asked reserve, so recording the balance cannot underflow |
| PoolSwaps.SettledPayments | contracts/pair_concentrated/src/contract.rs:752-764 | net effect of a settled swap on every account, whoever receiver and fee address are; the return is never zero |
| PoolSwaps.UndoDeposit | contracts/pair_concentrated/src/contract.rs:693-694 | subtracting the offer gives back the reserves held before the transfer |
| PoolSwaps.SameTrade | contracts/pair_concentrated/src/contract.rs:670-820 | the same trade settled on two books for two receivers changes every account alike except for where the proceeds go, and leaves the same pool state |
| PoolSwaps.DirectSwapIsSettlement | contracts/pair_concentrated/src/sudo.rs:25-54 | a swap from the DEX settles against the reserves before the offer, for the caller |
| PoolSwaps.ExactOutIsSettlement | contracts/pair_concentrated/src/sudo.rs:73-258 | an exact-output swap settles the charged offer, at most the maximum, against the same reserves, and the rest goes back |
| PoolSwaps.ExactOutEqualsDirectSwap | contracts/pair_concentrated/src/sudo.rs:137-235 | an exact-output swap that charges x and a direct swap of x end with identical balances of all accounts and identical pool storage, whenever both succeed |
| PoolSwaps.DispatchIsSettlement | contracts/pair_concentrated/src/contract.rs:608-657 | a swap dispatched by the pair settles against the same reserves for the recorded receiver and uses up the recorded parameters |
| PoolSwaps.DispatchEqualsDirectSwap | contracts/pair_concentrated/src/contract.rs:608-657 | a dispatched and a direct swap of one offer leave the same pool storage and reserves, and the same chain when the sender receives |
| PoolSwaps.SimulationPredictsSwap | contracts/pair_concentrated/src/queries.rs:279-333 | the simulation asked before a swap equals its return, spread and commission |
| PoolSwaps.ReverseSimulationPredictsOffer | contracts/pair_concentrated/src/queries.rs:336-370 | the reverse simulation equals the offer an exact-output swap charges, unless the query's own preliminary check refuses |
| PoolTrades.SwapFrame | contracts/pair_concentrated/src/sudo.rs:23-69 | each of the three swap transactions settles, against the reserves before it, the trade that can be worked out from the action and the state beforehand, with moves of the offered coin alone around it |
| PoolTrades.SwapEffect | contracts/pair_concentrated/src/contract.rs:693-796 | reserves, recorded balances and precommit after any swap transaction, all in terms of that trade; a saved precommit replaces the waiting one or is added to one of the same block, as the library has it |
| PoolTrades.TruncationFavoursPool | contracts/pair_concentrated/src/contract.rs:720-764 | after any swap transaction the offered reserve is exactly the curve's, the asked one at least the curve's and, with a fee address, above it by less than two smallest units |
| PoolPrices.TradeAsksTheCurve | contracts/pair_concentrated/src/contract.rs:700-718 | the curve is asked with the reserves in decimals and with the fee rate only when there is a fee address; an exact output is first priced by the curve |
| PoolPrices.SwapMovesPrice | contracts/pair_concentrated/src/contract.rs:733-748 | the whole configuration after any swap: the curve's new state when both flows reach the minimum size, from the last price, the supply and the reserves after the trade with the second scaled; else unchanged |
| PoolPrices.SwapAcceptedIff | contracts/pair_concentrated/src/sudo.rs:25-149 | exactly which swaps are accepted on each way in: a direct one is held to the price of its minimum output with no spread, a dispatched one to its sender's belief and spread, an exact output to the maximum; and the pool must be able to carry the trade out |
| PoolAccounts.SwapMovesCoins | contracts/pair_concentrated/src/contract.rs:750-764 | what any swap does to every account and coin: offer to the pair, truncated return to the payee, truncated maker fee to the fee address, nothing else |
| PoolLiquidity.ProvideEffect | contracts/pair_concentrated/src/contract.rs:299-501 | reserves grow by the deposits, the supply and holdings by the minted share, which is not zero, and the first time by the locked minimum; with tracking the records equal the new reserves |
| PoolLiquidity.FirstProvideMintsXcp | contracts/pair_concentrated/src/contract.rs:363-414 | the first provide brings both assets, and the whole supply after it is the truncated xcp of the deposits |
| PoolLiquidity.ProvideNeverDilutes | contracts/pair_concentrated/src/contract.rs:415-459 | for any invariant function, every provide that is not the first has supply' * D <= supply * D' through all truncations |
| PoolLiquidity.AccruedShareBounds | contracts/pair_concentrated/src/contract.rs:416-425 | the minted share is never above the exact share and below it only by the stated rounding |
| PoolLiquidity.BalancedProvideKeepsPrice | contracts/pair_concentrated/src/contract.rs:427-457 | a provide whose deposit of either asset is near its exact part of the new reserve leaves the whole configuration as it was, all roundings counted |
| PoolShares.DepositsIff | contracts/pair_concentrated/src/contract.rs:317-358 | which lists of assets can be provided, and what is deposited of each |
| PoolShares.FirstShareIs | contracts/pair_concentrated/src/contract.rs:389-414 | the first share is the xcp of the deposits less the locked minimum, if that leaves anything |
| PoolShares.LaterShareIs | contracts/pair_concentrated/src/contract.rs:415-425 | a later share is the growth of the invariant applied to the supply, less the fee, with every rounding |
| PoolShares.ProvideMovesPrice | contracts/pair_concentrated/src/contract.rs:410-457 | the whole configuration after any provide: both profits set to one the first time, and for a deposit out of balance in both assets the curve's state from the first deviation over the second, past the slippage guard |
| PoolShares.ProvideAcceptedIff | contracts/pair_concentrated/src/contract.rs:307-459 | exactly which provides are accepted |
| PoolAccounts.ProvideMovesCoins | contracts/pair_concentrated/src/contract.rs:398-473 | what any provide does to every account, the receiver of the LP units included |
| PoolLiquidity.WithdrawEffect | contracts/pair_concentrated/src/contract.rs:506-594 | a withdraw pays the queried share of both reserves to the sender, burns exactly the units sent, needs 1 <= amount < supply, and leaves the pair's own units alone |
| PoolShares.WithdrawMovesPrice | contracts/pair_concentrated/src/contract.rs:537-546 | the whole configuration after any withdraw: the real profit is the xcp of what stays over the supply that stays, nothing else changes |
| PoolShares.WithdrawAcceptedIff | contracts/pair_concentrated/src/contract.rs:512-570 | exactly which withdraws are accepted |
| PoolAccounts.WithdrawMovesCoins | contracts/pair_concentrated/src/contract.rs:548-570 | what any withdraw does to every account |
| PoolLiquidity.RefundBounds | contracts/pair_concentrated/src/contract.rs:527-530 | the refund is at most the exact share of amount - 1 units and below it only by the stated rounding |
| PoolLiquidity.WithdrawKeepsBacking | contracts/pair_concentrated/src/contract.rs:515-570 | after one withdrawal each remaining unit is backed at least as well, with one unit to spare |
| PoolLiquidity.WithdrawalsKeepBacking | contracts/pair_concentrated/src/contract.rs:506-594 | the same over any run of withdrawals by anyone |
| PoolLiquidity.SplittingNeverPaysMore | contracts/pair_concentrated/src/contract.rs:515-554 | a run of withdrawals burning A of T units pays at most R * (A - 1) / T of each reserve R |
| PoolRuns.StepIsSound | contracts/pair_concentrated/src/contract.rs:210-272 | every transaction keeps: supply is the sum of holdings, the pair holds the locked minimum, no swap parameters wait |
| PoolRuns.ReachableIsSound | contracts/pair_concentrated/src/contract.rs:63-184 | so do all states reachable from instantiation, hence a DEX swap never meets another caller's parameters |
| PoolRuns.FirstProvideOnlyOnce | contracts/pair_concentrated/src/contract.rs:389-414 | after the first provide the supply stays positive for ever, and no other holder can bring the withdraw divisor to zero |
| PoolRuns.DispatchConsumesParamsIff | contracts/pair_concentrated/src/sudo.rs:39-50 | a successful dispatch leaves no parameters behind if and only if POOL_ID names this pool |
| PoolRuns.StepKeepsSettings | contracts/pair_concentrated/src/contract.rs:274-288 | only the factory sets the pool id and only the owner turns tracking on, each only while unset |
| PoolRuns.OtherStepsAcceptedIff | contracts/pair_concentrated/src/contract.rs:825-865 | exactly when setting the pool id, tracking, tuning and plain transfers are accepted, and all that they change |
| PoolRuns.SettingsAreFinal | contracts/pair_concentrated/src/contract.rs:852-857 | over every run the pool id never changes once set and tracking never stops once on |
| PoolExamples.SelfPaymentExample | contracts/pair_concentrated/src/contract.rs:750-796 | a history from instantiation on in which a swap pays the pair itself and leaves the records wrong |
| PoolExamples.ForeignPoolExample | contracts/pair_concentrated/src/contract.rs:632-656 | a history in which a swap goes through another pool and leaves its parameters behind |
| PoolRecords.SwapRecordsExactly | contracts/pair_concentrated/src/contract.rs:783-796 | after any swap the record of the asked asset falls short of the bank by exactly what the trade, worked out beforehand, pays to the pair; so both records are right if and only if the payee is another account and no fee goes to the pair |
| PoolRecords.StepIsRecorded | contracts/pair_concentrated/src/contract.rs:852-865 | one transaction of any kind: the records afterwards differ from the bank by exactly the donations since they were last written |
| PoolRecords.RecordsFollowTheBank | contracts/pair_concentrated/src/contract.rs:475-487 | over all runs, with donations interleaved, bank balance = record + donations since the last record; equal right after every provide, withdraw, swap and enabling step |
| PoolRecords.RecordsFromInstantiation | contracts/pair_concentrated/src/contract.rs:154-159 | the same from instantiation on, coins already held counting as donations |
| PoolFeed.PrecommitNotesFlows | contracts/pair_concentrated/src/contract.rs:769-779 | after any swap the reserves have changed by offer, return and fee of the trade; when both flows reach the minimum size the precommit holds exactly them in asset order, or these added to the waiting ones of the same block, else it is kept; it can be priced |
| PoolFeed.AccumulateKeepsFeed | contracts/pair_concentrated/src/utils.rs:46-103 | at most one observation is appended, with the precommit's time and price, and timestamps stay strictly increasing |
| PoolFeed.SwapGrowsFeed | contracts/pair_concentrated/src/utils.rs:54-99 | an accepted swap appends an observation exactly when the precommit it finds is due, with that time, the price of those flows, and the price itself as first average or the moving average of the feed after that |
| PoolFeed.FeedKeepsUp | contracts/pair_concentrated/src/contract.rs:766-779 | once a swap is accepted in a later block than the waiting precommit, the feed has an observation of that time for ever |
| PoolFeed.FeedKeepsUpFromInstantiation | contracts/pair_concentrated/src/sudo.rs:205-218 | the same in every history from instantiation on |
| PoolFeed.FeedOverRuns | contracts/pair_concentrated/src/contract.rs:766-779 | over all runs the feed is append-only, strictly increasing, never ahead of the block, and with a positive minimum trade size always priceable |
| PoolFeed.FeedComesFromTrades | contracts/pair_concentrated/src/contract.rs:766-779 | from instantiation on the waiting precommit is what the accepted trades make it, and every observation carries the time of one of them and the price of the flows that waited after it |
| PoolFeed.PriceIsAlwaysDefined | contracts/pair_concentrated/src/utils.rs:54-55 | in every reachable state, for every positive minimum trade size and all precisions, both waiting amounts are positive, so the feed can fail a swap only through the moving average |
| PoolContract.PairContract.constructor | contracts/pair_concentrated/src/contract.rs:63-184 | a new pair has no LP supply, no parameters, no observations, and with tracking zero recorded balances |
| PoolContract.PairContract.RunMessages | contracts/pair_concentrated/tests/common/osmosis_ext.rs:111-137 | messages run in order; the ledger change is that of the specification, failure included |
| PoolContract.PairContract.AccumulateSwapSizes | contracts/pair_concentrated/src/utils.rs:46-103 | appends exactly what the feed specification says, and fails exactly when it does |
| PoolContract.PairContract.InternalSwap | contracts/pair_concentrated/src/contract.rs:670-820 | the decimal steps change storage and emit messages exactly as settling over integer reserves does |
| PoolContract.PairContract.SwapExactAmountOut | contracts/pair_concentrated/src/sudo.rs:73-258 | likewise for the integer steps of the exact-output swap, which settles through the same specification |
| PoolContract.PairContract.RecordDecimals | contracts/pair_concentrated/src/contract.rs:783-796 | balances recorded from decimal reserves are the integer reserves after the trade |
| PoolContract.PairContract.RecordIntegers | contracts/pair_concentrated/src/sudo.rs:222-235 | so are those recorded from integer reserves |
| PoolContract.PairContract.SudoSwapExactAmountIn | contracts/pair_concentrated/src/sudo.rs:23-54 | stored parameters replace the caller's and are removed; the swap then runs with its messages |
| PoolContract.PairContract.DexSwapIn | contracts/pair_concentrated/src/contract.rs:693-694 | an exact-input swap as one transaction: the offer is in the account before the pair is called, as the code relies on |
| PoolContract.PairContract.DexSwapOut | contracts/pair_concentrated/tests/common/osmosis_ext.rs:169-243 | the module's exact-output swap as one transaction, excess returned |
| PoolContract.PairContract.ExecuteSwap | contracts/pair_concentrated/src/contract.rs:608-657 | the dispatch stores the caller's parameters and forwards the offer to the pool that POOL_ID names |
| PoolContract.PairContract.OrderAssets | contracts/pair_concentrated/src/contract.rs:317-358 | one or two distinct pool assets in any order become deposits in pool order, an omitted one zero; anything else fails |
| PoolContract.PairContract.ProvideLiquidity | contracts/pair_concentrated/src/contract.rs:299-501 | storage and messages after the handler are those of the specification |
| PoolContract.PairContract.WithdrawLiquidity | contracts/pair_concentrated/src/contract.rs:506-594 | storage and messages after the handler are those of the specification |
| PoolContract.PairContract.SetPoolId | contracts/pair_concentrated/src/contract.rs:274-288 | only the factory, and only once |
| PoolContract.PairContract.EnableTracking | contracts/pair_concentrated/src/contract.rs:852-865 | only the owner, only once, recording both bank balances |
| PoolContract.PairContract.Transact | contracts/pair_concentrated/src/contract.rs:210-272 | a whole transaction of any kind; a failed one leaves the chain as it was |
| MakerRoutes.BuildFindsRoutes | contracts/maker/src/utils.rs:90-147 | for any limit n the walk returns t exactly when t is a linked chain of stored steps from the denom to ASTRO, meeting ASTRO only at its end, of at most n hops |
| MakerRoutes.RouteUnique | contracts/maker/src/utils.rs:90-147 | there is only one such chain |
| MakerRoutes.RouteHasNoRepeats | contracts/maker/src/utils.rs:90-147 | and it visits no denom twice |
| MakerRoutes.BuildOutcome | contracts/maker/src/utils.rs:99-146 | the walk succeeds iff ASTRO is within n hops, reports RouteNotFound(e) iff e is a dead end within the limit and before ASTRO, FailedToBuildRoute iff n hops lead on without ASTRO |
| MakerRoutes.LoopAlwaysFails | contracts/maker/src/utils.rs:135-141 | a reachable loop gives FailedToBuildRoute whatever the limit |
| MakerAcceptance.TakenIsTheWalk | contracts/maker/src/utils.rs:127-141 | FailedToBuildRoute reports exactly the denoms walked through |
| MakerRoutes.ForestIsAcyclic | contracts/maker/src/execute.rs:268-273 | when every key reaches ASTRO no denom leads back to itself |
| MakerContract.RoutesBuilder.BuildRoutes | contracts/maker/src/utils.rs:90-147 | with any cache the result or error is that of a cache-free walk of storage overlaid with the cache; the cache grows and stays within the overlay, so shared use never changes an answer |
| MakerContract.Maker.UpdateConfig | contracts/maker/src/execute.rs:154-199 | every check in order, its error, and the new config; nothing stored on error |
| MakerContract.Maker.SetPoolRoutes | contracts/maker/src/execute.rs:201-276 | writing and caching while checking, then walking each updated key, equals updating the map and walking it without a cache; each error undoes all writes |
| MakerContract.Maker.Collect | contracts/maker/src/execute.rs:78-152 | with one shared builder, messages, errors and stored time are those of walking each denom on its own |
| MakerRuns.SetPoolRoutesAccepts | contracts/maker/src/execute.rs:206-273 | exactly which messages are accepted |
| MakerAcceptance.SetPoolRoutesStores | contracts/maker/src/execute.rs:206-273 | acceptance in terms of the pools' denoms and of reachability; what is stored under each key, and that nothing else changes |
| MakerAcceptance.RoutesRefusal | contracts/maker/src/execute.rs:206-273 | a refused message names its first cause, and the first route or key at fault |
| MakerRuns.SetPoolRoutesKeepsForest | contracts/maker/src/execute.rs:219-273 | every key still reaches ASTRO, an updated one within the limit, an untouched one at most limit - 1 hops later than before |
| MakerRuns.DistanceAfterUpdate | contracts/maker/src/execute.rs:260-266 | after an update a denom is as far from ASTRO as before if its stored path meets no updated denom, else as far as the hops to the first of them plus that one's new distance |
| MakerRuns.FirstUpdatedMeans | contracts/maker/src/execute.rs:260-266 | the first updated denom on a stored path is found exactly when it is there within the limit |
| MakerRuns.WithinLimitMeans | contracts/maker/src/utils.rs:90-147 | all keys are within the hop limit if and only if the walk finds a route for each of them |
| MakerRuns.LimitKeptIff | contracts/maker/src/execute.rs:268-273 | an accepted update of routes within the hop limit keeps all of them within it if and only if the detours of the keys left alone fit, a condition on the stored routes and the message |
| MakerRuns.LimitOverRunsIff | contracts/maker/src/execute.rs:201-276 | over every run the limit holds at all times if and only if the detours of every accepted update fit |
| MakerRuns.RunKeepsForest | contracts/maker/src/execute.rs:201-276 | over any run that does not rename ASTRO the stored routes stay a forest leading to ASTRO |
| MakerRuns.RoutesAlwaysLeadToAstro | contracts/maker/src/instantiate.rs:19-47 | from instantiation on: ASTRO has no route, every key reaches ASTRO, and nothing leads back to itself |
| MakerRuns.RenamingAstroIff | contracts/maker/src/execute.rs:167-171 | an update that renames ASTRO, whatever else it sets, leaves a forest if and only if no route is stored |
| MakerRuns.LimitCanBeExceeded | contracts/maker/src/execute.rs:268-273 | two accepted updates after which a denom is six hops from ASTRO and its own walk fails |
| MakerRuns.SpreadStaysBounded | contracts/maker/src/execute.rs:178-185 | over every run the stored spread is at most one half |
| MakerAcceptance.InstantiateAcceptedIff | contracts/maker/src/instantiate.rs:27-43 | exactly which instantiations are accepted, and the state they store |
| MakerAcceptance.UpdateAcceptedIff | contracts/maker/src/execute.rs:162-196 | exactly which updates are accepted, and that they set the given fields alone |
| MakerAcceptance.UpdateRefusal | contracts/maker/src/execute.rs:163-188 | a refused update names its first cause |
| MakerAcceptance.ConfigIsWhatOwnerGave | contracts/maker/src/execute.rs:154-199 | over every run the owner stays, ASTRO, satellite and spread are the last ones an accepted update gave, and every accepted update came from the owner |
| MakerRuns.ConfigFollowsHistory | contracts/maker/src/execute.rs:88-95 | the stored time is that of the last accepted collect, and the cooldown the last one an accepted update gave |
| MakerRuns.InstantiatedCooldownIsDropped | contracts/maker/src/instantiate.rs:32-43 | over every run the cooldown of the instantiation message is never in force |
| MakerRuns.CollectsAreSpaced | contracts/maker/src/execute.rs:88-95 | under a cooldown successful collects are at least that far apart |
| MakerRuns.CollectMessages | contracts/maker/src/execute.rs:97-151 | in every reachable state the messages match in order the listed assets with something to take; each sends all of it along a route from its denom to ASTRO (empty for ASTRO) with a fair minimum; exactly the last asks for the reply |
| MakerAcceptance.TakeIs | contracts/maker/src/execute.rs:102-113 | a listing takes the lesser of its limit and the balance |
| MakerAcceptance.CollectAcceptedIff | contracts/maker/src/execute.rs:83-147 | exactly when a collect is accepted, and that it stores the time alone |
| MakerAcceptance.CollectRefusal | contracts/maker/src/execute.rs:83-147 | a refused collect names its cause |
| MakerRuns.CollectSendsWhatIsHeldIff | contracts/maker/src/execute.rs:101-119 | the messages of one denom send no more than is held if and only if its listings together ask for no more, or at most one of them takes anything |
| MakerQuote.QueryOutAmount | contracts/maker/src/utils.rs:38-55 | the loop returns the amount times the truncated product of the prices met along the route, or fails with the first failed or zero price |
| MakerAcceptance.PricesAreMet | contracts/maker/src/utils.rs:45-76 | the prices of a quote are those of each hop's own pool from the denom it starts at to the one it ends at, none zero |
| MakerQuote.PriceTruncation | contracts/maker/src/utils.rs:43-49 | the computed price is at most the exact rational product and short of it by at most the sum of the products of later prices, in 10^-18 |
| MakerQuote.QuoteBounds | contracts/maker/src/utils.rs:51-54 | the quote is at most amount times the exact product, and its shortfall is bounded |
| MakerQuote.MinOutBounds | contracts/maker/src/execute.rs:128-130 | the accepted minimum is at most the quote and at least (quote - 1) / 2 |
| FactoryKeys.LtMeans | contracts/factory/src/state.rs:29-37 | byte order: the second key extends the first or exceeds it at the first differing byte |
| FactoryKeys.SortSorts | contracts/factory/src/state.rs:33 | the sorted names are in order and are the same names |
| FactoryKeys.OrderedIsUnique | contracts/factory/src/state.rs:33 | names have only one ordered arrangement |
| FactoryKeys.PairKeyIgnoresOrder | contracts/factory/src/state.rs:29-37 | every permutation of a list of assets has the same key |
| FactoryKeys.KeysAgreeIff | contracts/factory/src/state.rs:29-37 | two lists of any lengths share a key if and only if the sorted names of one are those of the other cut differently |
| FactoryKeys.SameLengthKeysAgreeIff | contracts/factory/src/state.rs:29-37 | lists whose sorted names have equal lengths share a key if and only if they name the same assets |
| FactoryKeys.PairKeysAgreeIff | contracts/factory/src/state.rs:34-36 | two pairs share a key if and only if they name the same assets or one is the other with bytes, at least one, moved across the boundary between its names; never both |
| FactoryPages.Ascending | contracts/factory/src/state.rs:74-76 | iteration lists each stored key once, in strictly increasing order |
| FactoryPages.Page | contracts/factory/src/state.rs:61-84 | a page holds only stored keys beyond its bound |
| FactoryPages.Limit | contracts/factory/src/state.rs:44-59 | ten pairs a page by default and thirty at most |
| FactoryPages.BoundSkipsShadows | contracts/factory/src/state.rs:91-97 | the keys beyond a key with a byte 1 added are exactly the later keys that do not follow it directly with a byte 0 or equal it with a byte 1 added |
| FactoryPages.NextPage | contracts/factory/src/state.rs:61-71 | without such keys, what follows a page is the rest of the listing |
| FactoryPages.PageWalk | contracts/factory/src/contract.rs:511-522 | reading n pages, each after the last pair's assets, yields the first n * limit pairs in key order, and all of them once n * limit reaches their number |
| FactoryPages.ListedOnce | contracts/factory/src/contract.rs:511-522 | every registered pair is in the listing, at one place only |
| FactoryPages.PageWalkCompleteIff | contracts/factory/src/state.rs:54-97 | the walk lists all pairs for every page size if and only if no registered key shadows another |
| FactoryPages.ShadowBreaksWalk | contracts/factory/src/state.rs:54-97 | if a registered key shadows another, walking one pair at a time never lists all |
| FactoryPages.PlainIsNotShadowed | contracts/factory/src/state.rs:91-97 | keys of bytes above 1 are never skipped |
| FactoryContract.Factory.CheckAssetInfos | contracts/factory/src/state.rs:101-115 | accepts exactly lists of different native assets known to the bank, else the first error in order |
| FactoryContract.Factory.ExecuteCreatePair | contracts/factory/src/contract.rs:266-343 | every check in order, the remembered key and the pool message |
| FactoryContract.Factory.Reply | contracts/factory/src/contract.rs:347-390 | registers the pool's contract under the pending key unless it is taken; a failed pool id is passed over |
| FactoryContract.Factory.Deregister | contracts/factory/src/contract.rs:398-435 | removes exactly the entry of the list; each error leaves the registry alone |
| FactoryRuns.RegistryFollowsHistory | contracts/factory/src/contract.rs:266-435 | after any order of creations, replies and removals each key holds what the accepted ones alone decide |
| FactoryRuns.EntryKeepsAddress | contracts/factory/src/contract.rs:349-359 | a registered key keeps its address until an accepted removal of a list with that key |
| FactoryRuns.SecondReplyRefused | contracts/factory/src/contract.rs:350-353 | after a reply every further one is refused until a new creation or a removal |
| FactoryRuns.CreationAccepted | contracts/factory/src/contract.rs:302-359 | exactly which creations go through, each adding one entry and overwriting none |
| FactoryAcceptance.CreateAcceptedIff | contracts/factory/src/contract.rs:274-337 | exactly when a creation is accepted, the key remembered and the pool message with code and assets |
| FactoryAcceptance.CreateRefusal | contracts/factory/src/contract.rs:292-320 | a refused creation names its first cause |
| FactoryAcceptance.ReplyAcceptedIff | contracts/factory/src/contract.rs:347-390 | exactly when a reply is accepted, what it registers and announces, and why it is refused |
| FactoryAcceptance.DeregisterAcceptedIff | contracts/factory/src/contract.rs:398-435 | exactly when a removal is accepted, that only that entry goes, and what the generator is told |
| FactoryAcceptance.DeregisterRefusal | contracts/factory/src/contract.rs:403-424 | a refused removal names its first cause |
| FactoryAcceptance.OnlyOwnerRemoves | contracts/factory/src/contract.rs:407-412 | over every run an entry that is gone was removed by the owner |
| FactoryRuns.RegistryStaysTruthful | contracts/factory/src/contract.rs:347-435 | over all runs every entry is a contract whose own assets have that key |
| FactoryRuns.EveryPageWalkIsComplete | contracts/factory/src/contract.rs:511-522 | after any history on a chain without low bytes in denoms, walking the pages lists every pair once, in key order |
| FactoryRuns.PageWalkSkipExample | contracts/factory/src/state.rs:91-97 | two creations after which the walk misses a pair |
| FactoryRuns.AnyOrderFindsThePair | contracts/factory/src/contract.rs:501-504 | after any history a registered contract's assets, in any order, lead to it and to no other |
| FactoryRuns.AnnouncedIdIsTrue | contracts/factory/src/contract.rs:355-371 | after any history the id that an accepted reply announces to a pair contract is that of the one pool it serves |
| FactoryRuns.CollidingPairs | contracts/factory/src/contract.rs:304-306 | of two different pairs: if they collide, the second cannot be created, is answered with the first, and removing it removes the first; if not, each leaves the other's entry alone |
| FactoryRuns.CollisionExample | contracts/factory/src/state.rs:29-37 | "ab" with "c" collides with "a" with "bc" |

## Left out

- The curve mathematics, dynamic fees, repegging and the amplification ramp: in libraries that are not part of this repository; arbitrary functions here.
- The assumption behind refunds: get_share_in_assets is not part of this model; it is taken as the pro-rata share rounded down twice, ratio first.
- Integer widths: a 128- or 256-bit overflow reverts a transaction, which only removes runs from those covered.
- Bank rules on zero amounts: transfers, mints and burns of zero are refused and coins that a deposit does not name are not sent; other rules of the chain on amounts are not modelled.
- The pair's error kinds: its transactions succeed or revert. The maker's and the factory's errors are modelled.
- The pair's address, asset and LP denoms are different coins, fixed at instantiation; the coins sent with a provide equal its deposits exactly.
- The ring buffer: the feed is kept whole, and the moving average is an arbitrary function of it, since its meaning depends on a library outside this repository.
- Saving a precommit: the library's function is not part of this repository; both kinds are covered, one that overwrites the waiting precommit and one that adds to a precommit of the same block.
- The DEX module's forwarding of the offer before an exact-input call: done by the real module and needed by the pair's code; the repository's own mock of the module leaves it out.
- The snapshot history of recorded balances: only the latest entry is kept.
- A swap dispatched to another pool, when POOL_ID does not name this one, is a transfer out and an arbitrary transfer in.
- Owner updates of fees and of the amplification ramp are arbitrary changes that leave the price state alone.
- PoolRecords.RecordsFollowTheBank: asks that neither receiver nor fee address is the pair itself; PoolRecords.SwapRecordsExactly gives the exact difference when one is.
- PoolRuns.ReachableIsSound: asks that the id announced is the true one, which FactoryRuns.AnnouncedIdIsTrue proves of the factory, and that the pair signs no transaction; PoolRuns.DispatchConsumesParamsIff says what happens under another id.
- Nested creation: a pair code that calls back into the factory during its own creation is covered by the theorems on single entry points in any order, not by those on whole transactions.
- The factory's pair configurations and the creation fee are inputs of a step; their own updates are not modelled.
- Ownership proposals, migration, spot price and other display queries, response attributes and JSON: wrappers with nothing to prove.
- Taker fees, send hooks and other Osmosis module behaviour.
