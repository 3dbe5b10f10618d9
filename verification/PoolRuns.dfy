/** What every transaction keeps, and so what holds after any run of them: the LP supply and its holders, the pool id
    and the swap parameters. */
module PoolRuns {
  import opened Outcome
  import opened FixedPoint
  import opened Bank
  import opened PoolTypes
  import opened PoolSpec
  import opened PoolSwaps
  import opened PoolTrades
  import opened PoolLiquidity

  /** The factory announces the number under which the DEX really knows this pool. */
  predicate TrueId(pr: Pair, s: Step) {
    s.action.SetId? && s.action.sender == pr.factory ==> s.action.id == pr.dexPoolId
  }

  // ----- LP supply, pool id and swap parameters -----

  /** The LP supply is what the accounts hold together; once there is any, the pair itself holds the locked
      minimum; and no swap parameters are waiting. */
  ghost predicate Sound(c: Curve, pr: Pair, w: World) {
    && w.ledger.lpSupply == Total(w.ledger.bank, pr.lpDenom)
    && (w.ledger.lpSupply > 0 ==> Bal(w.ledger.bank, pr.addr, pr.lpDenom) >= c.minLiquidity)
    && KnowsId(pr, w) && w.swapParams.None?
  }

  lemma SwapIsSound(c: Curve, pr: Pair, w: World, s: Step, w': World)
    requires pr.Valid() && Outsider(pr, s) && Sound(c, pr, w)
    requires IsSwap(s.action) && Attempt(c, pr, w, s) == Some(w')
    ensures Sound(c, pr, w') && w'.ledger.lpSupply == w.ledger.lpSupply
  {
    hide Attempt, RunMsgs, Settle;
    var m, f, t := SwapFrame(c, pr, w, s, w');
    SettledPayments(c, pr, s.env, m, Reserves(pr, w), t.side, t.offer, Payee(s.action), pr.lpDenom);
    SettleKeeps(c, pr, s.env, m, Reserves(pr, w), t.side, t.offer, Payee(s.action));
  }

  lemma SettleKeeps(c: Curve, pr: Pair, env: Env, m: World, r: Duo<nat>, os: Side, offer: nat, receiver: Addr)
    ensures
      var s := Settle(c, pr, env, m, r, os, offer, receiver);
      s.Some? ==> s.value.world.swapParams == m.swapParams && s.value.world.poolId == m.poolId
  {
  }

  lemma TransferIsSound(c: Curve, pr: Pair, w: World, from: Addr, to: Addr, coin: Coin, w': World)
    requires from != pr.addr && Sound(c, pr, w) && Move(w, from, to, coin.denom, coin.amount) == Some(w')
    ensures Sound(c, pr, w')
  {
    hide Send;
    SendMoves(w.ledger.bank, from, to, coin.denom, coin.amount);
  }

  /** Every transaction keeps the invariant, and LP units once issued are never all gone. */
  lemma StepIsSound(c: Curve, pr: Pair, w: World, s: Step)
    requires pr.Valid() && Outsider(pr, s) && TrueId(pr, s) && Sound(c, pr, w)
    ensures Sound(c, pr, Exec(c, pr, w, s))
    ensures w.ledger.lpSupply > 0 ==> Exec(c, pr, w, s).ledger.lpSupply >= c.minLiquidity
  {
    hide RunMsgs, Settle, ProvideTx, WithdrawTx, DexSwapIn, DexSwapOut, PairSwap, Send, Minted, Refund;
    HeldWithinTotal(w.ledger.bank, pr.addr, pr.lpDenom);
    var w' := Exec(c, pr, w, s);
    if Attempt(c, pr, w, s).Some? {
      match s.action
      case Provide(sender, assets, tolerance, receiver) =>
        ProvideEffect(c, pr, s.env, w, sender, assets, tolerance, receiver, w');
      case Withdraw(sender, funds, wanted) =>
        WithdrawEffect(c, pr, s.env, w, sender, funds, wanted, w');
      case SwapViaPair(_, _, _, _, _) => SwapIsSound(c, pr, w, s, w');
      case SwapIn(_, _, _) => SwapIsSound(c, pr, w, s, w');
      case SwapOut(_, _, _, _) => SwapIsSound(c, pr, w, s, w');
      case SetId(_, _) =>
      case Track(_) =>
      case Tune(_, _, _) =>
      case Transfer(sender, payee, coin) => TransferIsSound(c, pr, w, sender, payee, coin, w');
    }
    HeldWithinTotal(w'.ledger.bank, pr.addr, pr.lpDenom);
  }

  /** A new pair: no LP coin exists yet, and with tracking both recorded balances are zero. */
  function Instantiated(pr: Pair, bank: Book, cfg: Config): World {
    World(Ledger(bank, 0), cfg, if cfg.trackBalances then map[pr.denoms.x0 := 0, pr.denoms.x1 := 0] else map[],
          None, None, None, [])
  }

  predicate Ordinary(pr: Pair, steps: seq<Step>) {
    forall i :: 0 <= i < |steps| ==> Outsider(pr, steps[i]) && TrueId(pr, steps[i])
  }

  lemma {:induction false} RunIsSound(c: Curve, pr: Pair, w: World, steps: seq<Step>)
    requires pr.Valid() && Ordinary(pr, steps) && Sound(c, pr, w)
    ensures Sound(c, pr, Run(c, pr, w, steps))
    ensures w.ledger.lpSupply > 0 ==> Run(c, pr, w, steps).ledger.lpSupply > 0
    decreases |steps|
  {
    hide Exec, Sound;
    if steps != [] {
      RunIsSound(c, pr, w, steps[..|steps| - 1]);
      StepIsSound(c, pr, Run(c, pr, w, steps[..|steps| - 1]), steps[|steps| - 1]);
    }
  }

  /** In every reachable state of a pair: holdings add up to the supply, the pair keeps the locked minimum, and
      SWAP_PARAMS is empty, so a swap from the DEX never meets another caller's parameters. */
  lemma ReachableIsSound(c: Curve, pr: Pair, bank: Book, cfg: Config, steps: seq<Step>)
    requires pr.Valid() && Ordinary(pr, steps) && Total(bank, pr.lpDenom) == 0
    ensures Sound(c, pr, Run(c, pr, Instantiated(pr, bank, cfg), steps))
  {
    RunIsSound(c, pr, Instantiated(pr, bank, cfg), steps);
  }

  /** The first-provide branch is taken at most once: after any later run the supply is still positive. And no
      holder other than the pair can ever bring the withdraw divisor to zero. */
  lemma FirstProvideOnlyOnce(c: Curve, pr: Pair, bank: Book, cfg: Config, early: seq<Step>, later: seq<Step>,
                             holder: Addr)
    requires pr.Valid() && Ordinary(pr, early) && Ordinary(pr, later) && Total(bank, pr.lpDenom) == 0
    requires Run(c, pr, Instantiated(pr, bank, cfg), early).ledger.lpSupply > 0 && holder != pr.addr
    ensures
      var v := Run(c, pr, Run(c, pr, Instantiated(pr, bank, cfg), early), later);
      && v.ledger.lpSupply > 0
      && v.ledger.lpSupply - Bal(v.ledger.bank, holder, pr.lpDenom) >= c.minLiquidity > 0
  {
    hide Run;
    ReachableIsSound(c, pr, bank, cfg, early);
    var u := Run(c, pr, Instantiated(pr, bank, cfg), early);
    RunIsSound(c, pr, u, later);
    TwoHolders(Run(c, pr, u, later).ledger.bank, pr.addr, holder, pr.lpDenom);
  }

  lemma TwoHolders(b: Book, a: Addr, a': Addr, d: Denom)
    requires a != a'
    ensures Bal(b, a, d) + Bal(b, a', d) <= Total(b, d)
  {
    TotalSplit(b, (a, d), d);
    TotalSplit(b - {(a, d)}, (a', d), d);
  }

  /** Exactly when dispatched parameters are consumed: a successful dispatch leaves none behind if and only if
      POOL_ID names this pool. */
  lemma DispatchConsumesParamsIff(c: Curve, pr: Pair, env: Env, w: World, sender: Addr, coin: Coin, belief: Option<Dec>,
                                  spread: Option<Dec>, to: Option<Addr>, w': World)
    requires pr.Valid() && sender != pr.addr
    requires PairSwap(c, pr, env, w, sender, coin.denom, coin.amount, belief, spread, to) == Some(w')
    ensures w'.swapParams.None? <==> w.poolId == Some(pr.dexPoolId)
  {
    hide RunMsgs, Settle;
    if w.poolId == Some(pr.dexPoolId) {
      var n := DispatchIsSettlement(c, pr, env, w, sender, coin.denom, coin.amount, belief, spread, to);
      SettleKeeps(c, pr, env, n, Reserves(pr, w), pr.SideOf(coin.denom).value, coin.amount, UnwrapOr(to, sender));
    }
  }

  // ----- What can only be set once -----

  lemma SwapKeepsSettings(c: Curve, pr: Pair, w: World, s: Step, w': World)
    requires pr.Valid() && Outsider(pr, s) && Sound(c, pr, w)
    requires IsSwap(s.action) && Attempt(c, pr, w, s) == Some(w')
    ensures w'.poolId == w.poolId && w'.config.trackBalances == w.config.trackBalances
  {
    hide Attempt, RunMsgs, Settle, TradeOf, Returned, FeeCharged, Decs, Total;
    var m, f, t := SwapFrame(c, pr, w, s, w');
    SettleKeeps(c, pr, s.env, m, Reserves(pr, w), t.side, t.offer, Payee(s.action));
    SwapEffect(c, pr, w, s, w');
  }

  /** Only the factory can set the pool id, only the owner can turn tracking on, and each only while it is unset. */
  lemma StepKeepsSettings(c: Curve, pr: Pair, w: World, s: Step)
    requires pr.Valid() && Outsider(pr, s) && Sound(c, pr, w)
    ensures
      var w' := Exec(c, pr, w, s);
      && (w'.poolId != w.poolId ==> (
           && w.poolId.None? && s.action.SetId? && s.action.sender == pr.factory
           && w'.poolId == Some(s.action.id)))
      && (w'.config.trackBalances != w.config.trackBalances ==>
           !w.config.trackBalances && s.action.Track? && s.action.sender == s.env.owner)
  {
    hide RunMsgs, Settle, ProvideTx, WithdrawTx, DexSwapIn, DexSwapOut, PairSwap, Send, Minted, Refund, Sound;
    var w' := Exec(c, pr, w, s);
    if Attempt(c, pr, w, s).Some? {
      match s.action
      case Provide(sender, assets, tolerance, receiver) =>
        ProvideEffect(c, pr, s.env, w, sender, assets, tolerance, receiver, w');
      case Withdraw(sender, funds, wanted) =>
        WithdrawEffect(c, pr, s.env, w, sender, funds, wanted, w');
      case SwapViaPair(_, _, _, _, _) => SwapKeepsSettings(c, pr, w, s, w');
      case SwapIn(_, _, _) => SwapKeepsSettings(c, pr, w, s, w');
      case SwapOut(_, _, _, _) => SwapKeepsSettings(c, pr, w, s, w');
      case _ =>
    }
  }

  /** Exactly when the remaining steps are accepted, and all that they change. */
  lemma OtherStepsAcceptedIff(c: Curve, pr: Pair, w: World, s: Step)
    ensures
      var after := Attempt(c, pr, w, s);
      match s.action
      case SetId(sender, id) =>
        after == if sender == pr.factory && w.poolId.None? then Some(w.(poolId := Some(id))) else None
      case Track(sender) =>
        && (after.Some? <==> sender == s.env.owner && !w.config.trackBalances)
        && (after.Some? ==> after.value == w.(
              config := w.config.(trackBalances := true),
              balances := w.balances[pr.denoms.x0 := Bal(w.ledger.bank, pr.addr, pr.denoms.x0)]
                                    [pr.denoms.x1 := Bal(w.ledger.bank, pr.addr, pr.denoms.x1)]))
      case Tune(sender, params, state) =>
        && (after.Some? <==> sender == s.env.owner && state.price == w.config.state.price)
        && (after.Some? ==> after.value == w.(config := w.config.(params := params, state := state)))
      case Transfer(sender, payee, coin) =>
        && (after.Some? <==> 0 < coin.amount <= Bal(w.ledger.bank, sender, coin.denom))
        && (after.Some? ==>
             && after.value == w.(ledger := w.ledger.(bank := after.value.ledger.bank))
             && Moved(w.ledger.bank, after.value.ledger.bank, sender, payee, coin.denom, coin.amount))
      case _ => true
  {
    match s.action
    case Transfer(sender, payee, coin) => SendMoves(w.ledger.bank, sender, payee, coin.denom, coin.amount);
    case _ =>
  }

  /** So over every run the pool id never changes once set, and tracking never stops once on. */
  lemma {:induction false} SettingsAreFinal(c: Curve, pr: Pair, w: World, steps: seq<Step>)
    requires pr.Valid() && Ordinary(pr, steps) && Sound(c, pr, w)
    ensures w.poolId.Some? ==> Run(c, pr, w, steps).poolId == w.poolId
    ensures w.config.trackBalances ==> Run(c, pr, w, steps).config.trackBalances
    decreases |steps|
  {
    if steps != [] {
      hide Exec, Sound;
      var n := |steps| - 1;
      SettingsAreFinal(c, pr, w, steps[..n]);
      RunIsSound(c, pr, w, steps[..n]);
      StepKeepsSettings(c, pr, Run(c, pr, w, steps[..n]), steps[n]);
    }
  }
}
