/** What each entry point of the maker does to its storage, or which error it reports. */
module MakerSpec {
  import opened Outcome
  import opened FixedPoint
  import opened Bank
  import opened MakerRoutes
  import opened MakerQuote

  const MAX_ALLOWED_SPREAD: Dec := ONE / 2
  const COOLDOWN_MIN: nat := 30
  const COOLDOWN_MAX: nat := 600

  datatype PoolRoute = PoolRoute(denomIn: Denom, denomOut: Denom, poolId: nat)

  datatype CoinWithLimit = CoinWithLimit(denom: Denom, limit: Option<nat>)

  datatype MakerConfig = MakerConfig(owner: Addr, astro: Denom, satellite: Addr, maxSpread: Dec, cooldown: Option<nat>)

  datatype MakerState = MakerState(config: MakerConfig, routes: Routes, lastCollect: nat)

  datatype SwapMsg = SwapMsg(route: seq<RouteStep>, tokenIn: Coin, minOut: nat, replyOnSuccess: bool)

  datatype MakerError =
    | EmptyRoutes | DuplicatedRoutes | Unauthorized | AstroInRoute(route: PoolRoute) | QueryFailed
    | InvalidPoolDenom(poolId: nat, denom: Denom) | BadRoute(why: RouteError)
    | EmptyAssets | Cooldown(next: nat) | NothingToCollect
    | MaxSpreadTooHigh | IncorrectCooldown | InvalidDenom | InvalidAddress | Overflow

  /** Block time, the maker's balances, pool-manager answers and the chain's validity rules. */
  datatype MakerEnv = MakerEnv(time: nat, balance: Denom -> nat, spot: SpotPrices, liquidity: nat -> Option<set<Denom>>,
                               denomOk: Denom -> bool, addressOk: Addr -> bool)

  // ----- Configuration -----

  predicate CooldownOk(cooldown: Option<nat>) {
    cooldown.Some? ==> COOLDOWN_MIN <= cooldown.value <= COOLDOWN_MAX
  }

  /** The cooldown of the message is checked but not stored. */
  function Instantiate(env: MakerEnv, owner: Addr, astro: Denom, satellite: Addr, maxSpread: Dec, cooldown: Option<nat>)
    : Result<MakerState, MakerError>
  {
    if !env.denomOk(astro) then Err(InvalidDenom)
    else if MAX_ALLOWED_SPREAD < maxSpread then Err(MaxSpreadTooHigh)
    else if !CooldownOk(cooldown) then Err(IncorrectCooldown)
    else if !env.addressOk(owner) || !env.addressOk(satellite) then Err(InvalidAddress)
    else Ok(MakerState(MakerConfig(owner, astro, satellite, maxSpread, None), map[], env.time))
  }

  function UpdateConfig(env: MakerEnv, st: MakerState, sender: Addr, astro: Option<Denom>, satellite: Option<Addr>,
                        maxSpread: Option<Dec>, cooldown: Option<nat>): Result<MakerState, MakerError>
  {
    if sender != st.config.owner then Err(Unauthorized)
    else if astro.Some? && !env.denomOk(astro.value) then Err(InvalidDenom)
    else if satellite.Some? && !env.addressOk(satellite.value) then Err(InvalidAddress)
    else if maxSpread.Some? && MAX_ALLOWED_SPREAD < maxSpread.value then Err(MaxSpreadTooHigh)
    else if !CooldownOk(cooldown) then Err(IncorrectCooldown)
    else Ok(st.(config := MakerConfig(st.config.owner, UnwrapOr(astro, st.config.astro),
                                      UnwrapOr(satellite, st.config.satellite),
                                      UnwrapOr(maxSpread, st.config.maxSpread),
                                      if cooldown.Some? then cooldown else st.config.cooldown)))
  }

  // ----- Routes -----

  predicate AllUnique(msg: seq<PoolRoute>) {
    forall i, j :: 0 <= i < j < |msg| ==> msg[i].denomIn != msg[j].denomIn
  }

  function StepOf(r: PoolRoute): RouteStep { RouteStep(r.denomOut, r.poolId) }

  function Updated(routes: Routes, msg: seq<PoolRoute>): Routes {
    if msg == [] then routes
    else Updated(routes, msg[..|msg| - 1])[msg[|msg| - 1].denomIn := StepOf(msg[|msg| - 1])]
  }

  function Touched(msg: seq<PoolRoute>): set<Denom> { set i | 0 <= i < |msg| :: msg[i].denomIn }

  /** What is wrong with one route of the message, before any walk. */
  function Flaw(env: MakerEnv, astro: Denom, r: PoolRoute): Option<MakerError> {
    if r.denomIn == astro then Some(AstroInRoute(r)) else
    var denoms := env.liquidity(r.poolId);
    if denoms.None? then Some(QueryFailed)
    else if r.denomIn !in denoms.value then Some(InvalidPoolDenom(r.poolId, r.denomIn))
    else if r.denomOut !in denoms.value then Some(InvalidPoolDenom(r.poolId, r.denomOut))
    else None
  }

  function FirstFlaw(env: MakerEnv, astro: Denom, msg: seq<PoolRoute>): Option<MakerError> {
    if msg == [] then None else
    var flaw := Flaw(env, astro, msg[0]);
    if flaw.Some? then flaw else FirstFlaw(env, astro, msg[1..])
  }

  /** The error of the first updated key whose route does not lead to ASTRO. */
  function FirstLost(routes: Routes, astro: Denom, msg: seq<PoolRoute>): Option<RouteError> {
    if msg == [] then None else
    var built := Build(routes, msg[0].denomIn, astro, MAX_SWAPS_DEPTH);
    if built.Err? then Some(built.error) else FirstLost(routes, astro, msg[1..])
  }

  function SetPoolRoutes(env: MakerEnv, st: MakerState, sender: Addr,
                         msg: seq<PoolRoute>): Result<MakerState, MakerError> {
    if msg == [] then Err(EmptyRoutes)
    else if !AllUnique(msg) then Err(DuplicatedRoutes)
    else if sender != st.config.owner then Err(Unauthorized)
    else
      var flaw := FirstFlaw(env, st.config.astro, msg);
      if flaw.Some? then Err(flaw.value) else
      var routes := Updated(st.routes, msg);
      var lost := FirstLost(routes, st.config.astro, msg);
      if lost.Some? then Err(BadRoute(lost.value)) else Ok(st.(routes := routes))
  }

  // ----- Collect -----

  /** The coin taken for a listed asset: the balance, or the limit if that is lower. */
  function Take(env: MakerEnv, a: CoinWithLimit): Coin {
    Coin(a.denom, if a.limit.Some? then Min(a.limit.value, env.balance(a.denom)) else env.balance(a.denom))
  }

  function MessageFor(env: MakerEnv, st: MakerState, coin: Coin): Result<SwapMsg, MakerError> {
    var route := Build(st.routes, coin.denom, st.config.astro, MAX_SWAPS_DEPTH);
    if route.Err? then Err(BadRoute(route.error)) else
    var out := Quote(env.spot, coin.amount, coin.denom, route.value);
    if out.None? then Err(QueryFailed)
    else if ONE < st.config.maxSpread then Err(Overflow)
    else Ok(SwapMsg(route.value, coin, MinOut(st.config.maxSpread, out.value), false))
  }

  function Before(ms: seq<SwapMsg>, rest: Result<seq<SwapMsg>, MakerError>): Result<seq<SwapMsg>, MakerError> {
    if rest.Ok? then Ok(ms + rest.value) else rest
  }

  function Plan(env: MakerEnv, st: MakerState, assets: seq<CoinWithLimit>): Result<seq<SwapMsg>, MakerError>
    decreases |assets|
  {
    if assets == [] then Ok([]) else
    var coin := Take(env, assets[0]);
    if coin.amount == 0 then Plan(env, st, assets[1..]) else
    var m := MessageFor(env, st, coin);
    if m.Err? then Err(m.error) else Before([m.value], Plan(env, st, assets[1..]))
  }

  function Collect(env: MakerEnv, st: MakerState, assets: seq<CoinWithLimit>)
    : Result<(MakerState, seq<SwapMsg>), MakerError>
  {
    if assets == [] then Err(EmptyAssets)
    else if st.config.cooldown.Some? && env.time < st.lastCollect + st.config.cooldown.value then
      Err(Cooldown(st.lastCollect + st.config.cooldown.value))
    else
      var plan := Plan(env, st, assets);
      if plan.Err? then Err(plan.error)
      else if plan.value == [] then Err(NothingToCollect)
      else
        var n := |plan.value| - 1;
        Ok((st.(lastCollect := env.time), plan.value[n := plan.value[n].(replyOnSuccess := true)]))
  }

  // ----- Runs -----

  datatype MakerAction =
    | SetRoutes(sender: Addr, msg: seq<PoolRoute>)
    | Configure(sender: Addr, astro: Option<Denom>, satellite: Option<Addr>, maxSpread: Option<Dec>,
                cooldown: Option<nat>)
    | Gather(assets: seq<CoinWithLimit>)

  datatype MakerStep = MakerStep(env: MakerEnv, action: MakerAction)

  function Attempt(st: MakerState, s: MakerStep): Result<MakerState, MakerError> {
    match s.action
    case SetRoutes(sender, msg) => SetPoolRoutes(s.env, st, sender, msg)
    case Configure(sender, astro, satellite, maxSpread, cooldown) =>
      UpdateConfig(s.env, st, sender, astro, satellite, maxSpread, cooldown)
    case Gather(assets) =>
      var r := Collect(s.env, st, assets);
      if r.Ok? then Ok(r.value.0) else Err(r.error)
  }

  function Exec(st: MakerState, s: MakerStep): MakerState {
    var r := Attempt(st, s);
    if r.Ok? then r.value else st
  }

  function Run(st: MakerState, steps: seq<MakerStep>): MakerState {
    if steps == [] then st else Exec(Run(st, steps[..|steps| - 1]), steps[|steps| - 1])
  }
}
