/** The state, messages and environment of one concentrated-liquidity pair on Osmosis. */
module PoolTypes {
  import opened Outcome
  import opened FixedPoint
  import opened Bank

  const LP_TOKEN_PRECISION: Precision := 6

  type Positive = n: nat | n > 0 witness 1

  /** Index of one of the two assets. */
  type Side = i: nat | i < 2

  function Other(i: Side): Side { 1 - i }

  /** One value per asset. */
  datatype Duo<T> = Duo(x0: T, x1: T) {
    function At(i: Side): T { if i == 0 then x0 else x1 }

    function With(i: Side, v: T): Duo<T> { if i == 0 then Duo(v, x1) else Duo(x0, v) }
  }

  datatype AmpGamma = AmpGamma(amp: Dec, gamma: Dec)

  datatype PriceState = PriceState(oraclePrice: Dec, lastPrice: Dec, priceScale: Dec,
                                   lastPriceUpdate: nat, xcpProfit: Dec, xcpProfitReal: Dec)

  datatype PoolState = PoolState(initial: AmpGamma, future: AmpGamma, futureTime: nat,
                                 initialTime: nat, price: PriceState)

  datatype PoolParams = PoolParams(midFee: Dec, outFee: Dec, feeGamma: Dec, repegProfitThreshold: Dec,
                                   minPriceScaleDelta: Dec, maHalfTime: nat)

  datatype Config = Config(params: PoolParams, state: PoolState, trackBalances: bool)

  datatype SwapResult = SwapResult(dy: Dec, spreadFee: Dec, makerFee: Dec, shareFee: Dec, totalFee: Dec)

  datatype Observation = Observation(ts: nat, price: Dec, priceSma: Dec)

  datatype Precommit = Precommit(base: nat, quote: nat, ts: nat)

  datatype SwapParams = SwapParams(beliefPrice: Option<Dec>, maxSpread: Option<Dec>, sender: Addr, to: Option<Addr>)

  /** The curve arithmetic and guards of the Astroport libraries, which this repository calls but does
      not contain. Every result of this project holds whatever these functions are; None is a failure. sumsBlock says
      whether saving a precommit adds to one of the same block or overwrites it, which is the library's choice too. */
  datatype Curve = Curve(
    minTradeSize: Dec,
    minLiquidity: Positive,
    ampGammaAt: (PoolState, nat) -> AmpGamma,
    calcD: (Duo<Dec>, AmpGamma) -> Option<Dec>,
    getXcp: (Dec, Dec) -> Option<Dec>,
    provideFee: (Duo<Dec>, Duo<Dec>, PoolParams) -> Dec,
    computeSwap: (Duo<Dec>, Dec, Side, Config, nat, Dec) -> Option<SwapResult>,
    computeOffer: (Duo<Dec>, Dec, Side, Config, nat) -> Option<(Dec, Dec, Dec)>,
    tradePrice: (SwapResult, Dec, Side) -> Option<Dec>,
    updatePrice: (PoolState, PoolParams, nat, Dec, Duo<Dec>, Dec) -> Option<PoolState>,
    swapCheck: (Duo<Dec>, Dec) -> bool,
    spreadCheck: (Option<Dec>, Option<Dec>, nat, nat, nat) -> bool,
    slippageCheck: (Duo<Dec>, Dec, PriceState, Option<Dec>) -> bool,
    movingAverage: (seq<Observation>, Dec) -> Option<Dec>,
    sumsBlock: bool)

  /** What instantiation fixes: the pair's address, assets and LP coin, the pinned factory, and the
      number under which the DEX module knows this pool. */
  datatype Pair = Pair(addr: Addr, denoms: Duo<Denom>, precisions: Duo<Precision>, lpDenom: Denom,
                       factory: Addr, dexPoolId: nat) {
    /** The factory admits two different assets, and both exist before the LP coin does. */
    predicate Valid() {
      denoms.x0 != denoms.x1 && lpDenom != denoms.x0 && lpDenom != denoms.x1
    }

    function SideOf(d: Denom): Option<Side> {
      if d == denoms.x0 then Some(0) else if d == denoms.x1 then Some(1) else None
    }
  }

  /** The factory's answer to a fee query. */
  datatype FeeInfo = FeeInfo(feeAddress: Option<Addr>, makerFeeRate: Dec) {
    function MakerShare(): Dec { if feeAddress.Some? then makerFeeRate else 0 }
  }

  /** What a transaction finds around the contract. `foreign` is the address and the payout of the pool a
      swap is dispatched to when POOL_ID does not name this pool. */
  datatype Env = Env(time: nat, fee: FeeInfo, registered: bool, owner: Addr, foreign: Option<(Addr, nat)>)

  datatype Ledger = Ledger(bank: Book, lpSupply: nat)

  datatype World = World(ledger: Ledger, config: Config, balances: map<Denom, nat>, swapParams: Option<SwapParams>,
                         poolId: Option<nat>, precommit: Option<Precommit>, observations: seq<Observation>)

  /** Messages a handler emits; the chain runs them in order after the handler, and refuses a zero amount. */
  datatype Msg = Pay(to: Addr, coin: Coin) | Mint(to: Addr, coin: Coin) | Burn(from: Addr, coin: Coin)

  datatype SwapReceipt = SwapReceipt(offer: nat, returned: nat, spread: nat, commission: nat, makerFee: nat)

  function RunMsg(pair: Addr, g: Ledger, m: Msg): Option<Ledger> {
    match m
    case Pay(to, c) =>
      var b := Send(g.bank, pair, to, c.denom, c.amount);
      if b.Some? then Some(g.(bank := b.value)) else None
    case Mint(to, c) =>
      if c.amount > 0 then Some(Ledger(Credit(g.bank, to, c.denom, c.amount), g.lpSupply + c.amount)) else None
    case Burn(from, c) =>
      if 0 < c.amount <= Bal(g.bank, from, c.denom) && c.amount <= g.lpSupply
      then Some(Ledger(Debit(g.bank, from, c.denom, c.amount), g.lpSupply - c.amount)) else None
  }

  function RunMsgs(pair: Addr, g: Ledger, ms: seq<Msg>): Option<Ledger>
    decreases |ms|
  {
    if ms == [] then Some(g) else
    var g' := RunMsg(pair, g, ms[0]);
    if g'.Some? then RunMsgs(pair, g'.value, ms[1..]) else None
  }

  function Reserves(pr: Pair, w: World): Duo<nat> {
    Duo(Bal(w.ledger.bank, pr.addr, pr.denoms.x0), Bal(w.ledger.bank, pr.addr, pr.denoms.x1))
  }

  function Decs(pr: Pair, r: Duo<nat>): Duo<Dec> {
    Duo(ToDec(r.x0, pr.precisions.x0), ToDec(r.x1, pr.precisions.x1))
  }

  /** The curve's internal representation: the second asset priced in the first. */
  function Scaled(xs: Duo<Dec>, scale: Dec): Duo<Dec> { Duo(xs.x0, Mul(xs.x1, scale)) }
}
