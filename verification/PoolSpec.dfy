/** What each entry point of the pair does to the chain state. None means the transaction reverts. */
module PoolSpec {
  import opened Outcome
  import opened FixedPoint
  import opened Bank
  import opened PoolTypes

  // ----- Observation feed -----

  function Accumulate(c: Curve, pre: Option<Precommit>, obs: seq<Observation>, now: nat): Option<seq<Observation>> {
    if pre.None? then Some(obs) else
    var p := pre.value;
    if p.quote == 0 then None else
    var price := FloorDiv(p.base * ONE, p.quote);
    if obs == [] then
      Some(if p.ts < now then [Observation(p.ts, price, price)] else [])
    else if obs[|obs| - 1].ts < p.ts then
      var sma := c.movingAverage(obs, price);
      if sma.Some? then Some(obs + [Observation(p.ts, price, sma.value)]) else None
    else Some(obs)
  }

  // ----- Swaps -----

  datatype Swapped = Swapped(world: World, msgs: seq<Msg>, receipt: SwapReceipt)

  function Repriced(c: Curve, cfg: Config, now: nat, supply: nat, xs: Duo<Dec>, r: SwapResult, offer: Dec, os: Side)
    : Option<Config>
  {
    if r.dy + r.makerFee + r.shareFee >= c.minTradeSize && offer >= c.minTradeSize then
      var last := c.tradePrice(r, offer, os);
      if last.None? then None else
      var st := c.updatePrice(cfg.state, cfg.params, now, ToDec(supply, LP_TOKEN_PRECISION),
                              Scaled(xs, cfg.state.price.priceScale), last.value);
      if st.Some? then Some(cfg.(state := st.value)) else None
    else Some(cfg)
  }

  function FeeCharged(pr: Pair, fee: FeeInfo, r: SwapResult, ai: Side): nat {
    if fee.feeAddress.Some? then ToUint(r.makerFee, pr.precisions.At(ai)) else 0
  }

  function Payouts(pr: Pair, fee: FeeInfo, ai: Side, returned: nat, charged: nat, receiver: Addr): seq<Msg> {
    [Pay(receiver, Coin(pr.denoms.At(ai), returned))] +
    if fee.feeAddress.Some? && charged > 0
    then [Pay(fee.feeAddress.value, Coin(pr.denoms.At(ai), charged))] else []
  }

  /** Reserves in the curve's decimals after the trade, before price scaling. */
  function AfterTrade(xs: Duo<Dec>, r: SwapResult, offer: Dec, os: Side): Option<Duo<Dec>> {
    var ai := Other(os);
    if xs.At(ai) < r.dy + r.makerFee then None
    else Some(xs.With(os, xs.At(os) + offer).With(ai, xs.At(ai) - (r.dy + r.makerFee)))
  }

  /** What a trade pays out, once truncated to tokens, is always there. */
  lemma PayoutFits(pr: Pair, fee: FeeInfo, s: SwapResult, ai: Side, reserve: nat)
    requires s.dy + s.makerFee <= ToDec(reserve, pr.precisions.At(ai))
    ensures ToUint(s.dy, pr.precisions.At(ai)) + FeeCharged(pr, fee, s, ai) <= reserve
  {
    var p := pr.precisions.At(ai);
    Distribute(ToUint(s.dy, p), FeeCharged(pr, fee, s, ai), Unit(p));
    CancelLe(ToUint(s.dy, p) + FeeCharged(pr, fee, s, ai), reserve, Unit(p));
  }

  /** The precommit after two flows are saved: added to the waiting ones of the same block, or in their place. */
  function Noted(c: Curve, pre: Option<Precommit>, base: nat, quote: nat, now: nat): Precommit {
    if c.sumsBlock && pre.Some? && pre.value.ts == now
    then Precommit(pre.value.base + base, pre.value.quote + quote, now)
    else Precommit(base, quote, now)
  }

  function Committed(c: Curve, pre: Option<Precommit>, now: nat, os: Side, offer: nat, offerDec: Dec,
                     returned: nat, dy: Dec): Option<Precommit>
  {
    if offerDec >= c.minTradeSize && dy >= c.minTradeSize then
      Some(if os == 0 then Noted(c, pre, offer, returned, now) else Noted(c, pre, returned, offer, now))
    else pre
  }

  /** A trade of `offer` against the prior reserves `r`, the offer being already in the pair's account. */
  function Settle(c: Curve, pr: Pair, env: Env, w: World, r: Duo<nat>, os: Side, offer: nat, receiver: Addr)
    : Option<Swapped>
  {
    var ai := Other(os);
    var xs := Decs(pr, r);
    var offerDec := ToDec(offer, pr.precisions.At(os));
    var res := c.computeSwap(xs, offerDec, ai, w.config, env.time, env.fee.MakerShare());
    if res.None? then None else
    var s := res.value;
    var after := AfterTrade(xs, s, offerDec, os);
    if after.None? then None else
    var returned := ToUint(s.dy, pr.precisions.At(ai));
    var charged := FeeCharged(pr, env.fee, s, ai);
    var cfg := Repriced(c, w.config, env.time, w.ledger.lpSupply, after.value, s, offerDec, os);
    var obs := Accumulate(c, w.precommit, w.observations, env.time);
    if cfg.None? || obs.None? then None else
    PayoutFits(pr, env.fee, s, ai, r.At(ai));
    var w' := w.(config := cfg.value, observations := obs.value,
                 precommit := Committed(c, w.precommit, env.time, os, offer, offerDec, returned, s.dy),
                 balances := if cfg.value.trackBalances
                             then w.balances[pr.denoms.At(os) := r.At(os) + offer]
                                            [pr.denoms.At(ai) := r.At(ai) - returned - charged]
                             else w.balances);
    Some(Swapped(w', Payouts(pr, env.fee, ai, returned, charged, receiver),
                 SwapReceipt(offer, returned, ToUint(s.spreadFee, pr.precisions.At(ai)),
                             ToUint(s.totalFee, pr.precisions.At(ai)), charged)))
  }

  function InternalSwap(c: Curve, pr: Pair, env: Env, w: World, sender: Addr, denom: Denom, offer: nat,
                        belief: Option<Dec>, maxSpread: Option<Dec>, to: Option<Addr>): Option<Swapped>
  {
    var side := pr.SideOf(denom);
    if side.None? then None else
    var os := side.value;
    var held := Reserves(pr, w);
    if held.At(os) < offer then None else
    var r := held.With(os, held.At(os) - offer);
    if !c.swapCheck(Decs(pr, r), ToDec(offer, pr.precisions.At(os))) then None else
    var s := Settle(c, pr, env, w, r, os, offer, UnwrapOr(to, sender));
    if s.Some? && c.spreadCheck(belief, maxSpread, offer, s.value.receipt.returned, s.value.receipt.spread)
    then s else None
  }

  function SwapExactOut(c: Curve, pr: Pair, env: Env, w: World, sender: Addr, inDenom: Denom, maxIn: nat,
                        outDenom: Denom, out: nat): Option<Swapped>
  {
    var inSide, outSide := pr.SideOf(inDenom), pr.SideOf(outDenom);
    var held := Reserves(pr, w);
    if inDenom == outDenom || inSide.None? || outSide.None? || out == 0 || held.x0 == 0 || held.x1 == 0 then None else
    var os, ai := inSide.value, outSide.value;
    if held.At(os) < maxIn then None else
    var r := held.With(os, held.At(os) - maxIn);
    var need := c.computeOffer(Decs(pr, r), ToDec(out, pr.precisions.At(ai)), ai, w.config, env.time);
    if need.None? then None else
    var offer := ToUint(need.value.0, pr.precisions.At(os));
    if maxIn < offer then None else
    Settle(c, pr, env, w, r, os, offer, sender)
  }

  /** The DEX module's call: stored parameters of a dispatched swap win, and are consumed. */
  function SudoSwapIn(c: Curve, pr: Pair, env: Env, w: World, sender: Addr, denom: Denom, amount: nat, minOut: nat)
    : Option<Swapped>
  {
    if minOut == 0 then None
    else if w.swapParams.None? then
      InternalSwap(c, pr, env, w, sender, denom, amount, Some(FloorDiv(amount * ONE, minOut)), Some(0), None)
    else
      var p := w.swapParams.value;
      InternalSwap(c, pr, env, w.(swapParams := None), p.sender, denom, amount, p.beliefPrice, p.maxSpread, p.to)
  }

  /** Running the emitted messages completes the transaction. */
  function Finish(pr: Pair, w: World, ms: seq<Msg>): Option<World> {
    var g := RunMsgs(pr.addr, w.ledger, ms);
    if g.Some? then Some(w.(ledger := g.value)) else None
  }

  function FinishSwap(pr: Pair, s: Option<Swapped>): Option<World> {
    if s.Some? then Finish(pr, s.value.world, s.value.msgs) else None
  }

  function Move(w: World, from: Addr, to: Addr, d: Denom, n: nat): Option<World> {
    var b := Send(w.ledger.bank, from, to, d, n);
    if b.Some? then Some(w.(ledger := w.ledger.(bank := b.value))) else None
  }

  /** A transfer that is left out when there is nothing to send. */
  function MoveAny(w: World, from: Addr, to: Addr, d: Denom, n: nat): Option<World> {
    if n == 0 then Some(w) else Move(w, from, to, d, n)
  }

  /** A swap arriving from the DEX: the module forwards the offer, then calls the pair. */
  function DexSwapIn(c: Curve, pr: Pair, env: Env, w: World, sender: Addr, denom: Denom, amount: nat, minOut: nat)
    : Option<World>
  {
    var m := Move(w, sender, pr.addr, denom, amount);
    if m.None? then None else FinishSwap(pr, SudoSwapIn(c, pr, env, m.value, sender, denom, amount, minOut))
  }

  /** An exact-output swap: the module forwards the maximum, calls the pair, and returns the excess. */
  function DexSwapOut(c: Curve, pr: Pair, env: Env, w: World, sender: Addr, inDenom: Denom, maxIn: nat,
                      outDenom: Denom, out: nat): Option<World>
  {
    var m := Move(w, sender, pr.addr, inDenom, maxIn);
    if m.None? then None else
    var s := SwapExactOut(c, pr, env, m.value, sender, inDenom, maxIn, outDenom, out);
    var f := FinishSwap(pr, s);
    if f.None? || maxIn < s.value.receipt.offer then None else
    MoveAny(f.value, pr.addr, sender, inDenom, maxIn - s.value.receipt.offer)
  }

  /** execute_swap: remember the caller's parameters and forward the offer to the DEX module. */
  function PairSwap(c: Curve, pr: Pair, env: Env, w: World, sender: Addr, denom: Denom, amount: nat,
                    belief: Option<Dec>, maxSpread: Option<Dec>, to: Option<Addr>): Option<World>
  {
    var m := Move(w, sender, pr.addr, denom, amount);
    var side := pr.SideOf(denom);
    if m.None? || side.None? || w.poolId.None? then None else
    var w1 := m.value.(swapParams := Some(SwapParams(belief, maxSpread, sender, to)));
    if w.poolId.value == pr.dexPoolId then
      DexSwapIn(c, pr, env, w1, pr.addr, denom, amount, 1)
    else if env.foreign.None? then None
    else
      var sent := Move(w1, pr.addr, env.foreign.value.0, denom, amount);
      if sent.None? then None else
      Move(sent.value, env.foreign.value.0, pr.addr, pr.denoms.At(Other(side.value)), env.foreign.value.1)
  }

  // ----- Liquidity -----

  datatype Handled = Handled(world: World, msgs: seq<Msg>)

  /** The deposit of each pool asset named by the message: one or two distinct pool assets, in any order. */
  function Deposits(pr: Pair, assets: seq<Coin>): Option<Duo<nat>> {
    if |assets| == 1 then
      var i := pr.SideOf(assets[0].denom);
      if i.None? then None else Some(Duo(0, 0).With(i.value, assets[0].amount))
    else if |assets| == 2 then
      if pr.denoms.x0 == assets[0].denom && pr.denoms.x1 == assets[1].denom then
        Some(Duo(assets[0].amount, assets[1].amount))
      else if pr.denoms.x0 == assets[1].denom && pr.denoms.x1 == assets[0].denom then
        Some(Duo(assets[1].amount, assets[0].amount))
      else None
    else None
  }

  /** LP decimals earned by a provide that is not the first. */
  function AccruedShare(total: Dec, oldD: Dec, newD: Dec, fee: Dec): Option<Dec> {
    if oldD == 0 || ONE < fee then None
    else Some(Mul(SatSub(Div(Mul(total, newD), oldD), total), ONE - fee))
  }

  /** LP decimals earned by the first provide, after the locked minimum is set aside. */
  function FirstShare(c: Curve, xcp: Dec): Option<Dec> {
    var share := SatSub(xcp, ToDec(c.minLiquidity, LP_TOKEN_PRECISION));
    if share == 0 then None else Some(share)
  }

  function ShareOf(c: Curve, cfg: Config, ag: AmpGamma, before: Duo<Dec>, dep: Duo<Dec>, total: Dec): Option<Dec> {
    var scale := cfg.state.price.priceScale;
    var newXp := Scaled(Duo(before.x0 + dep.x0, before.x1 + dep.x1), scale);
    var newD := c.calcD(newXp, ag);
    if newD.None? then None
    else if total == 0 then
      var xcp := c.getXcp(newD.value, scale);
      if xcp.None? then None else FirstShare(c, xcp.value)
    else
      var oldD := c.calcD(Scaled(before, scale), ag);
      if oldD.None? then None
      else AccruedShare(total, oldD.value, newD.value, c.provideFee(Scaled(dep, scale), newXp, cfg.params))
  }

  /** The price moves only when the deposit is far from balanced; then slippage is also checked. */
  function RepricedByProvide(c: Curve, cfg: Config, now: nat, newXp: Duo<Dec>, dep: Duo<Dec>, total: Dec,
                             share: Dec, tolerance: Option<Dec>): Option<Config>
  {
    var scale := cfg.state.price.priceScale;
    if total + share == 0 || scale == 0 then None else
    var ratio := Div(share, total + share);
    var d0 := Diff(dep.x0, Mul(newXp.x0, ratio));
    var d1 := Diff(dep.x1, Div(Mul(newXp.x1, ratio), scale));
    if d0 < c.minTradeSize || d1 < c.minTradeSize then Some(cfg)
    else if !c.slippageCheck(dep, share, cfg.state.price, tolerance) || d1 == 0 then None
    else
      var st := c.updatePrice(cfg.state, cfg.params, now, total + share, newXp, Div(d0, d1));
      if st.Some? then Some(cfg.(state := st.value)) else None
  }

  function AfterFirst(cfg: Config, total: Dec): Config {
    if total == 0
    then cfg.(state := cfg.state.(price := cfg.state.price.(xcpProfit := ONE, xcpProfitReal := ONE)))
    else cfg
  }

  function Tracked(pr: Pair, w: World, r: Duo<nat>): map<Denom, nat> {
    if w.config.trackBalances then w.balances[pr.denoms.x0 := r.x0][pr.denoms.x1 := r.x1] else w.balances
  }

  function ProvideLiquidity(c: Curve, pr: Pair, env: Env, w: World, sender: Addr, dep: Duo<nat>,
                            tolerance: Option<Dec>, receiver: Option<Addr>): Option<Handled>
  {
    var held := Reserves(pr, w);
    var total := ToDec(w.ledger.lpSupply, LP_TOKEN_PRECISION);
    if !env.registered || (total == 0 && (dep.x0 == 0 || dep.x1 == 0)) || held.x0 < dep.x0 || held.x1 < dep.x1
    then None else
    var before, depDec := Decs(pr, Duo(held.x0 - dep.x0, held.x1 - dep.x1)), Decs(pr, dep);
    var share := ShareOf(c, w.config, c.ampGammaAt(w.config.state, env.time), before, depDec, total);
    if share.None? then None else
    var newXp := Scaled(Duo(before.x0 + depDec.x0, before.x1 + depDec.x1), w.config.state.price.priceScale);
    var cfg := RepricedByProvide(c, AfterFirst(w.config, total), env.time, newXp, depDec, total, share.value,
                                 tolerance);
    if cfg.None? then None else
    var locked := if total == 0 then [Mint(pr.addr, Coin(pr.lpDenom, c.minLiquidity))] else [];
    var minted := Mint(UnwrapOr(receiver, sender), Coin(pr.lpDenom, ToUint(share.value, LP_TOKEN_PRECISION)));
    Some(Handled(w.(config := cfg.value, balances := Tracked(pr, w, held)), locked + [minted]))
  }

  /** A provide transaction: the coins sent are exactly the deposits. */
  function ProvideTx(c: Curve, pr: Pair, env: Env, w: World, sender: Addr, assets: seq<Coin>,
                     tolerance: Option<Dec>, receiver: Option<Addr>): Option<World>
  {
    var dep := Deposits(pr, assets);
    if dep.None? then None else
    var m0 := MoveAny(w, sender, pr.addr, pr.denoms.x0, dep.value.x0);
    if m0.None? then None else
    var m1 := MoveAny(m0.value, sender, pr.addr, pr.denoms.x1, dep.value.x1);
    if m1.None? then None else
    var h := ProvideLiquidity(c, pr, env, m1.value, sender, dep.value, tolerance, receiver);
    if h.Some? then Finish(pr, h.value.world, h.value.msgs) else None
  }

  /** Pro-rata part of a reserve, rounded down twice. */
  function ShareInAsset(reserve: Dec, amount: nat, total: nat): Dec {
    if total == 0 then 0 else Mul(reserve, FloorDiv(amount * ONE, total))
  }

  /** Token amounts paid for `amount` LP units; one unit is held back against rounding. */
  function Refund(pr: Pair, held: Duo<nat>, amount: nat, total: nat): Duo<nat> {
    var xs := Decs(pr, held);
    Duo(ToUint(ShareInAsset(xs.x0, SatSub(amount, 1), total), pr.precisions.x0),
        ToUint(ShareInAsset(xs.x1, SatSub(amount, 1), total), pr.precisions.x1))
  }

  function WithdrawLiquidity(c: Curve, pr: Pair, env: Env, w: World, sender: Addr, amount: nat, assets: seq<Coin>)
    : Option<Handled>
  {
    var held, total := Reserves(pr, w), w.ledger.lpSupply;
    var xs := Decs(pr, held);
    var out0, out1 := ShareInAsset(xs.x0, SatSub(amount, 1), total), ShareInAsset(xs.x1, SatSub(amount, 1), total);
    if amount == 0 || assets != [] || xs.x0 < out0 || xs.x1 < out1 || total <= amount then None else
    var scale := w.config.state.price.priceScale;
    var d := c.calcD(Scaled(Duo(xs.x0 - out0, xs.x1 - out1), scale), c.ampGammaAt(w.config.state, env.time));
    if d.None? then None else
    var xcp := c.getXcp(d.value, scale);
    var refund := Refund(pr, held, amount, total);
    if xcp.None? || held.x0 < refund.x0 || held.x1 < refund.x1 then None else
    var perShare := Div(xcp.value, ToDec(total - amount, LP_TOKEN_PRECISION));
    var cfg := w.config.(state := w.config.state.(price := w.config.state.price.(xcpProfitReal := perShare)));
    Some(Handled(w.(config := cfg, balances := Tracked(pr, w, Duo(held.x0 - refund.x0, held.x1 - refund.x1))),
                 [Pay(sender, Coin(pr.denoms.x0, refund.x0)), Pay(sender, Coin(pr.denoms.x1, refund.x1)),
                  Burn(pr.addr, Coin(pr.lpDenom, amount))]))
  }

  /** A withdraw transaction: exactly one coin is sent, the LP coin. */
  function WithdrawTx(c: Curve, pr: Pair, env: Env, w: World, sender: Addr, funds: seq<Coin>, assets: seq<Coin>)
    : Option<World>
  {
    if |funds| != 1 || funds[0].denom != pr.lpDenom then None else
    var m := Move(w, sender, pr.addr, pr.lpDenom, funds[0].amount);
    if m.None? then None else
    var h := WithdrawLiquidity(c, pr, env, m.value, sender, funds[0].amount, assets);
    if h.Some? then Finish(pr, h.value.world, h.value.msgs) else None
  }

  // ----- Administration -----

  function SetPoolId(pr: Pair, w: World, sender: Addr, id: nat): Option<World> {
    if sender == pr.factory && w.poolId.None? then Some(w.(poolId := Some(id))) else None
  }

  function EnableTracking(pr: Pair, env: Env, w: World, sender: Addr): Option<World> {
    if sender != env.owner || w.config.trackBalances then None else
    var w' := w.(config := w.config.(trackBalances := true));
    Some(w'.(balances := Tracked(pr, w', Reserves(pr, w))))
  }

  /** Owner updates of fees and of the amplification ramp leave the price state alone. */
  function Retune(env: Env, w: World, sender: Addr, params: PoolParams, state: PoolState): Option<World> {
    if sender == env.owner && state.price == w.config.state.price
    then Some(w.(config := w.config.(params := params, state := state))) else None
  }

  // ----- Queries -----

  function QueryShare(pr: Pair, w: World, amount: nat): Duo<nat> {
    Refund(pr, Reserves(pr, w), amount, w.ledger.lpSupply)
  }

  datatype Simulation = Simulation(returned: nat, spread: nat, commission: nat)

  function QuerySimulation(c: Curve, pr: Pair, env: Env, w: World, denom: Denom, offer: nat): Option<Simulation> {
    var side := pr.SideOf(denom);
    if side.None? then None else
    var ai := Other(side.value);
    var xs, offerDec := Decs(pr, Reserves(pr, w)), ToDec(offer, pr.precisions.At(side.value));
    if !c.swapCheck(xs, offerDec) then None else
    var res := c.computeSwap(xs, offerDec, ai, w.config, env.time, env.fee.MakerShare());
    if res.None? then None else
    Some(Simulation(ToUint(res.value.dy, pr.precisions.At(ai)), ToUint(res.value.spreadFee, pr.precisions.At(ai)),
                    ToUint(res.value.totalFee, pr.precisions.At(ai))))
  }

  /** The offer that would buy `ask`. */
  function QueryReverseSimulation(c: Curve, pr: Pair, env: Env, w: World, denom: Denom, ask: nat): Option<nat> {
    var side := pr.SideOf(denom);
    if side.None? then None else
    var ai := side.value;
    var xs, askDec := Decs(pr, Reserves(pr, w)), ToDec(ask, pr.precisions.At(ai));
    if !c.swapCheck(xs, askDec) then None else
    var need := c.computeOffer(xs, askDec, ai, w.config, env.time);
    if need.None? then None else Some(ToUint(need.value.0, pr.precisions.At(Other(ai))))
  }

  // ----- Runs -----

  /** Everything that can happen to the pair and to the coins around it. */
  datatype Action =
    | Provide(sender: Addr, assets: seq<Coin>, tolerance: Option<Dec>, receiver: Option<Addr>)
    | Withdraw(sender: Addr, funds: seq<Coin>, wanted: seq<Coin>)
    | SwapViaPair(sender: Addr, offer: Coin, belief: Option<Dec>, maxSpread: Option<Dec>, to: Option<Addr>)
    | SwapIn(sender: Addr, offer: Coin, minOut: nat)
    | SwapOut(sender: Addr, inDenom: Denom, maxIn: nat, out: Coin)
    | SetId(sender: Addr, id: nat)
    | Track(sender: Addr)
    | Tune(sender: Addr, params: PoolParams, state: PoolState)
    | Transfer(sender: Addr, payee: Addr, coin: Coin)

  datatype Step = Step(env: Env, action: Action)

  function Attempt(c: Curve, pr: Pair, w: World, s: Step): Option<World> {
    match s.action
    case Provide(sender, assets, tolerance, receiver) =>
      ProvideTx(c, pr, s.env, w, sender, assets, tolerance, receiver)
    case Withdraw(sender, funds, wanted) => WithdrawTx(c, pr, s.env, w, sender, funds, wanted)
    case SwapViaPair(sender, offer, belief, maxSpread, to) =>
      PairSwap(c, pr, s.env, w, sender, offer.denom, offer.amount, belief, maxSpread, to)
    case SwapIn(sender, offer, minOut) => DexSwapIn(c, pr, s.env, w, sender, offer.denom, offer.amount, minOut)
    case SwapOut(sender, inDenom, maxIn, out) =>
      DexSwapOut(c, pr, s.env, w, sender, inDenom, maxIn, out.denom, out.amount)
    case SetId(sender, id) => SetPoolId(pr, w, sender, id)
    case Track(sender) => EnableTracking(pr, s.env, w, sender)
    case Tune(sender, params, state) => Retune(s.env, w, sender, params, state)
    case Transfer(sender, payee, coin) => Move(w, sender, payee, coin.denom, coin.amount)
  }

  /** A failed transaction leaves the chain as it was. */
  function Exec(c: Curve, pr: Pair, w: World, s: Step): World { UnwrapOr(Attempt(c, pr, w, s), w) }

  function Run(c: Curve, pr: Pair, w: World, steps: seq<Step>): World
    decreases |steps|
  {
    if steps == [] then w else Exec(c, pr, Run(c, pr, w, steps[..|steps| - 1]), steps[|steps| - 1])
  }
}
