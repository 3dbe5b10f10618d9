/** Exactly what the maker accepts, what it stores then, and which cause a refusal names. */
module MakerAcceptance {
  import opened Outcome
  import opened FixedPoint
  import opened Bank
  import opened MakerRoutes
  import opened MakerQuote
  import opened MakerSpec
  import opened MakerRuns

  // ----- Configuration -----

  /** Instantiation: a spread of at most one half, a cooldown of 30 to 600 seconds if any, a valid denom and valid
      addresses. No cooldown is stored, no route, and the time as that of the last collect. */
  lemma InstantiateAcceptedIff(env: MakerEnv, owner: Addr, astro: Denom, satellite: Addr, maxSpread: Dec,
                               cooldown: Option<nat>)
    ensures
      var r := Instantiate(env, owner, astro, satellite, maxSpread, cooldown);
      && (r.Ok? <==>
           && env.denomOk(astro) && env.addressOk(owner) && env.addressOk(satellite) && 2 * maxSpread <= ONE
           && (cooldown.Some? ==> 30 <= cooldown.value <= 600))
      && (r.Ok? ==> r.value == MakerState(MakerConfig(owner, astro, satellite, maxSpread, None), map[], env.time))
  {
  }

  /** An update is accepted from the owner alone, each given field being valid; it sets those fields and nothing else.
      */
  lemma UpdateAcceptedIff(env: MakerEnv, st: MakerState, sender: Addr, astro: Option<Denom>, satellite: Option<Addr>,
                          maxSpread: Option<Dec>, cooldown: Option<nat>)
    ensures
      var r := UpdateConfig(env, st, sender, astro, satellite, maxSpread, cooldown);
      && (r.Ok? <==>
           && sender == st.config.owner
           && (astro.Some? ==> env.denomOk(astro.value)) && (satellite.Some? ==> env.addressOk(satellite.value))
           && (maxSpread.Some? ==> 2 * maxSpread.value <= ONE)
           && (cooldown.Some? ==> 30 <= cooldown.value <= 600))
      && (r.Ok? ==>
           && r.value.routes == st.routes && r.value.lastCollect == st.lastCollect
           && r.value.config.owner == st.config.owner
           && r.value.config.astro == (if astro.Some? then astro.value else st.config.astro)
           && r.value.config.satellite == (if satellite.Some? then satellite.value else st.config.satellite)
           && r.value.config.maxSpread == (if maxSpread.Some? then maxSpread.value else st.config.maxSpread)
           && r.value.config.cooldown == (if cooldown.Some? then cooldown else st.config.cooldown))
  {
  }

  /** A refused update names its first cause. */
  lemma UpdateRefusal(env: MakerEnv, st: MakerState, sender: Addr, astro: Option<Denom>, satellite: Option<Addr>,
                      maxSpread: Option<Dec>, cooldown: Option<nat>)
    requires UpdateConfig(env, st, sender, astro, satellite, maxSpread, cooldown).Err?
    ensures
      var badDenom := astro.Some? && !env.denomOk(astro.value);
      var badAddress := satellite.Some? && !env.addressOk(satellite.value);
      var badSpread := maxSpread.Some? && 2 * maxSpread.value > ONE;
      match UpdateConfig(env, st, sender, astro, satellite, maxSpread, cooldown).error
      case Unauthorized => sender != st.config.owner
      case InvalidDenom => sender == st.config.owner && badDenom
      case InvalidAddress => sender == st.config.owner && !badDenom && badAddress
      case MaxSpreadTooHigh => sender == st.config.owner && !badDenom && !badAddress && badSpread
      case IncorrectCooldown =>
        && sender == st.config.owner && !badDenom && !badAddress && !badSpread
        && cooldown.Some? && !(30 <= cooldown.value <= 600)
      case _ => false
  {
  }

  /** The last value that a history of updates gave. */
  function LastGiven<T>(start: T, history: seq<MakerStep>, given: MakerStep -> Option<T>): T {
    if history == [] then start else
    var last := given(history[|history| - 1]);
    if last.Some? then last.value else LastGiven(start, history[..|history| - 1], given)
  }

  lemma LastGivenGrows<T>(start: T, history: seq<MakerStep>, s: MakerStep, given: MakerStep -> Option<T>)
    ensures LastGiven(start, history + [s], given) ==
      if given(s).Some? then given(s).value else LastGiven(start, history, given)
  {
    assert (history + [s])[..|history|] == history;
  }

  function AstroGiven(s: MakerStep): Option<Denom> { if s.action.Configure? then s.action.astro else None }

  function SatelliteGiven(s: MakerStep): Option<Addr> { if s.action.Configure? then s.action.satellite else None }

  function SpreadGiven(s: MakerStep): Option<Dec> { if s.action.Configure? then s.action.maxSpread else None }

  /** The step, if it is an administrative one, is sent by this account. */
  predicate SentBy(owner: Addr, s: MakerStep) { !s.action.Gather? ==> s.action.sender == owner }

  lemma StepGives(st: MakerState, s: MakerStep)
    requires Attempt(st, s).Ok?
    ensures
      var cfg := Exec(st, s).config;
      && SentBy(st.config.owner, s) && cfg.owner == st.config.owner
      && cfg.astro == (if AstroGiven(s).Some? then AstroGiven(s).value else st.config.astro)
      && cfg.satellite == (if SatelliteGiven(s).Some? then SatelliteGiven(s).value else st.config.satellite)
      && cfg.maxSpread == (if SpreadGiven(s).Some? then SpreadGiven(s).value else st.config.maxSpread)
  {
    hide FirstFlaw, FirstLost, Plan, Updated;
  }

  predicate AllSentBy(owner: Addr, history: seq<MakerStep>) {
    forall i :: 0 <= i < |history| ==> SentBy(owner, history[i])
  }

  /** The configuration is what a history of updates made of an earlier one, all of them sent by its owner. */
  predicate GivenBy(history: seq<MakerStep>, start: MakerConfig, cfg: MakerConfig) {
    && cfg.owner == start.owner && AllSentBy(start.owner, history)
    && cfg.astro == LastGiven(start.astro, history, AstroGiven)
    && cfg.satellite == LastGiven(start.satellite, history, SatelliteGiven)
    && cfg.maxSpread == LastGiven(start.maxSpread, history, SpreadGiven)
  }

  lemma OneMoreGiven(start: MakerConfig, st: MakerState, history: seq<MakerStep>, s: MakerStep)
    requires GivenBy(history, start, st.config) && Attempt(st, s).Ok?
    ensures GivenBy(history + [s], start, Exec(st, s).config)
  {
    hide Attempt, Exec, AstroGiven, SatelliteGiven, SpreadGiven, LastGiven, SentBy;
    StepGives(st, s);
    LastGivenGrows(start.astro, history, s, AstroGiven);
    LastGivenGrows(start.satellite, history, s, SatelliteGiven);
    LastGivenGrows(start.maxSpread, history, s, SpreadGiven);
  }

  /** Over every run: the owner never changes, ASTRO, satellite and spread are the last ones that an accepted update
      gave, and every accepted update of the configuration or of the routes was sent by the owner. */
  lemma {:induction false} ConfigIsWhatOwnerGave(st: MakerState, steps: seq<MakerStep>)
    ensures GivenBy(Accepted(st, steps), st.config, Run(st, steps).config)
    decreases |steps|
  {
    if steps != [] {
      hide Attempt, Exec, GivenBy;
      var n := |steps| - 1;
      ConfigIsWhatOwnerGave(st, steps[..n]);
      var before, history := Run(st, steps[..n]), Accepted(st, steps[..n]);
      if Attempt(before, steps[n]).Ok? {
        OneMoreGiven(st.config, before, history, steps[n]);
      } else {
        RefusedChangesNothing(before, steps[n]);
        assert history + [] == history;
      }
    }
  }

  lemma RefusedChangesNothing(st: MakerState, s: MakerStep)
    requires Attempt(st, s).Err?
    ensures Exec(st, s) == st
  {
    hide Attempt;
  }

  // ----- Routes -----

  /** A route that the pool manager can back: it does not start at ASTRO, and its pool holds both its denoms. */
  predicate Backed(env: MakerEnv, astro: Denom, r: PoolRoute) {
    && r.denomIn != astro && env.liquidity(r.poolId).Some?
    && r.denomIn in env.liquidity(r.poolId).value && r.denomOut in env.liquidity(r.poolId).value
  }

  /** Which messages are accepted, and what is stored then: the message's routes under their keys, all else unchanged.
      */
  lemma SetPoolRoutesStores(env: MakerEnv, st: MakerState, sender: Addr, msg: seq<PoolRoute>)
    ensures
      var r := SetPoolRoutes(env, st, sender, msg);
      && (r.Ok? <==>
           && msg != [] && AllUnique(msg) && sender == st.config.owner
           && (forall i :: 0 <= i < |msg| ==> Backed(env, st.config.astro, msg[i]))
           && (forall i :: 0 <= i < |msg| ==> Reaches(Updated(st.routes, msg), msg[i].denomIn, st.config.astro, 5)))
      && (r.Ok? ==>
           && r.value == st.(routes := r.value.routes) && r.value.routes == Updated(st.routes, msg)
           && (forall i :: 0 <= i < |msg| ==>
                && msg[i].denomIn in r.value.routes
                && r.value.routes[msg[i].denomIn] == RouteStep(msg[i].denomOut, msg[i].poolId))
           && (forall d :: (forall i :: 0 <= i < |msg| ==> msg[i].denomIn != d) ==>
                && (d in r.value.routes <==> d in st.routes)
                && (d in st.routes ==> r.value.routes[d] == st.routes[d])))
  {
    hide Reaches, Updated, FirstFlaw, FirstLost;
    SetPoolRoutesAccepts(env, st, sender, msg);
    forall i | 0 <= i < |msg|
      ensures Flaw(env, st.config.astro, msg[i]).None? <==> Backed(env, st.config.astro, msg[i])
    {
    }
    if AllUnique(msg) { UpdatedLookup(st.routes, msg); }
  }

  lemma {:induction false} FirstFlawIs(env: MakerEnv, astro: Denom, msg: seq<PoolRoute>) returns (i: nat)
    requires FirstFlaw(env, astro, msg).Some?
    ensures i < |msg| && Flaw(env, astro, msg[i]) == FirstFlaw(env, astro, msg)
    ensures forall j :: 0 <= j < i ==> Flaw(env, astro, msg[j]).None?
    decreases |msg|
  {
    hide Flaw;
    if Flaw(env, astro, msg[0]).Some? {
      i := 0;
    } else {
      var k := FirstFlawIs(env, astro, msg[1..]);
      i := k + 1;
      assert forall j :: 0 < j < i ==> msg[j] == msg[1..][j - 1];
    }
  }

  lemma {:induction false} FirstLostIs(routes: Routes, astro: Denom, msg: seq<PoolRoute>) returns (i: nat)
    requires FirstLost(routes, astro, msg).Some?
    ensures i < |msg|
    ensures Build(routes, msg[i].denomIn, astro, MAX_SWAPS_DEPTH) == Err(FirstLost(routes, astro, msg).value)
    ensures forall j :: 0 <= j < i ==> Build(routes, msg[j].denomIn, astro, MAX_SWAPS_DEPTH).Ok?
    decreases |msg|
  {
    hide Build;
    if Build(routes, msg[0].denomIn, astro, MAX_SWAPS_DEPTH).Err? {
      i := 0;
    } else {
      var k := FirstLostIs(routes, astro, msg[1..]);
      i := k + 1;
      assert forall j :: 0 < j < i ==> msg[j] == msg[1..][j - 1];
    }
  }

  /** A refused message of routes names its first cause: of the checks on the message as a whole, then of the first
      route that cannot be backed, then of the first key that does not reach ASTRO. */
  lemma RoutesRefusal(env: MakerEnv, st: MakerState, sender: Addr, msg: seq<PoolRoute>) returns (i: nat)
    requires SetPoolRoutes(env, st, sender, msg).Err?
    ensures
      var astro, allBacked := st.config.astro, forall j :: 0 <= j < |msg| ==> Backed(env, st.config.astro, msg[j]);
      var wellFormed := msg != [] && AllUnique(msg) && sender == st.config.owner;
      match SetPoolRoutes(env, st, sender, msg).error
      case EmptyRoutes => msg == []
      case DuplicatedRoutes => msg != [] && !AllUnique(msg)
      case Unauthorized => msg != [] && AllUnique(msg) && sender != st.config.owner
      case AstroInRoute(r) => wellFormed && i < |msg| && r == msg[i] && r.denomIn == astro
      case QueryFailed => wellFormed && i < |msg| && env.liquidity(msg[i].poolId).None?
      case InvalidPoolDenom(id, d) =>
        && wellFormed && i < |msg| && msg[i].poolId == id && env.liquidity(id).Some? && d !in env.liquidity(id).value
        && (d == msg[i].denomIn || d == msg[i].denomOut)
      case BadRoute(why) =>
        && wellFormed && allBacked && i < |msg|
        && Build(Updated(st.routes, msg), msg[i].denomIn, astro, MAX_SWAPS_DEPTH) == Err(why)
      case _ => false
    ensures
      var e := SetPoolRoutes(env, st, sender, msg).error;
      e.AstroInRoute? || e.QueryFailed? || e.InvalidPoolDenom? ==>
        i < |msg| && forall j :: 0 <= j < i ==> Backed(env, st.config.astro, msg[j])
  {
    hide Updated, Build, FirstFlaw, FirstLost;
    i := 0;
    if msg != [] && AllUnique(msg) && sender == st.config.owner {
      if FirstFlaw(env, st.config.astro, msg).Some? {
        i := FirstFlawIs(env, st.config.astro, msg);
      } else {
        NoFlawMeans(env, st.config.astro, msg);
        forall j | 0 <= j < |msg| ensures Backed(env, st.config.astro, msg[j]) {
          assert Flaw(env, st.config.astro, msg[j]).None?;
        }
        i := FirstLostIs(Updated(st.routes, msg), st.config.astro, msg);
      }
    }
  }

  /** The walk's own report of where it went: every denom from the start through all the hops it may take. */
  lemma {:induction false} TakenIsTheWalk(routes: Routes, d: Denom, astro: Denom, n: nat)
    requires Build(routes, d, astro, n).Err? && Build(routes, d, astro, n).error.FailedToBuildRoute?
    ensures
      var e := Build(routes, d, astro, n).error;
      e.denom == d && |e.taken| == n + 1 && forall j :: 0 <= j <= n ==> Hop(routes, d, j) == Some(e.taken[j])
    decreases n
  {
    assert Hop(routes, d, 0) == Some(d);
    if n > 0 {
      var e := routes[d].denomOut;
      var rest := Trail(routes, e, astro, n - 1).value;
      var whole := [routes[d]] + rest;
      assert At(d, whole, |whole|) == At(e, rest, |rest|);
      TakenIsTheWalk(routes, e, astro, n - 1);
      var taken := Build(routes, d, astro, n).error.taken;
      forall j | 0 < j <= n ensures Hop(routes, d, j) == Some(taken[j]) {
        assert taken[j] == whole[j - 1].denomOut;
        assert taken[j] == Build(routes, e, astro, n - 1).error.taken[j - 1];
      }
    }
  }

  // ----- Collect -----

  /** Each price is that of the hop's own pool, from the denom the hop starts at to the one it ends at, and not zero. */
  predicate Met(spot: SpotPrices, d: Denom, route: seq<RouteStep>, ps: seq<Dec>) {
    && |ps| == |route|
    && forall i :: 0 <= i < |route| ==>
         spot(route[i].poolId, At(d, route, i), route[i].denomOut) == Some(ps[i]) && ps[i] > 0
  }

  lemma MetNext(spot: SpotPrices, d: Denom, route: seq<RouteStep>, ps: seq<Dec>)
    requires route != [] && ps != []
    ensures Met(spot, d, route, ps) <==>
      && spot(route[0].poolId, d, route[0].denomOut) == Some(ps[0]) && ps[0] > 0
      && Met(spot, route[0].denomOut, route[1..], ps[1..])
  {
    var e, rest, qs := route[0].denomOut, route[1..], ps[1..];
    assert At(d, route, 0) == d;
    assert forall i :: 0 <= i < |rest| ==> At(e, rest, i) == At(d, route, i + 1) && rest[i] == route[i + 1];
    if Met(spot, d, route, ps) {
      forall i | 0 <= i < |rest|
        ensures spot(rest[i].poolId, At(e, rest, i), rest[i].denomOut) == Some(qs[i]) && qs[i] > 0
      {
        assert route[i + 1] == rest[i] && ps[i + 1] == qs[i];
      }
    }
    if spot(route[0].poolId, d, e) == Some(ps[0]) && ps[0] > 0 && Met(spot, e, rest, qs) {
      forall i | 0 <= i < |route|
        ensures spot(route[i].poolId, At(d, route, i), route[i].denomOut) == Some(ps[i]) && ps[i] > 0
      {
        if i > 0 { assert route[i] == rest[i - 1] && ps[i] == qs[i - 1] && At(d, route, i) == At(e, rest, i - 1); }
      }
    }
  }

  lemma PricesNext(spot: SpotPrices, d: Denom, route: seq<RouteStep>, ps: seq<Dec>)
    requires route != []
    ensures PricesAlong(spot, d, route) == Some(ps) <==>
      && ps != [] && spot(route[0].poolId, d, route[0].denomOut) == Some(ps[0]) && ps[0] > 0
      && PricesAlong(spot, route[0].denomOut, route[1..]) == Some(ps[1..])
  {
    if ps != [] { assert ps == [ps[0]] + ps[1..]; }
  }

  /** The prices a quote uses are exactly the ones met along the route; a missing or zero price is none at all. */
  lemma {:induction false} PricesAreMet(spot: SpotPrices, d: Denom, route: seq<RouteStep>, ps: seq<Dec>)
    ensures PricesAlong(spot, d, route) == Some(ps) <==> Met(spot, d, route, ps)
    decreases |route|
  {
    if route != [] {
      hide PricesAlong;
      PricesNext(spot, d, route, ps);
      if ps != [] {
        MetNext(spot, d, route, ps);
        PricesAreMet(spot, route[0].denomOut, route[1..], ps[1..]);
      }
    }
  }

  /** The listing can be swapped: there is a route within the hop limit, and a price for each of its hops. */
  predicate Swappable(env: MakerEnv, st: MakerState, d: Denom) {
    && Reaches(st.routes, d, st.config.astro, 5)
    && var route := Build(st.routes, d, st.config.astro, MAX_SWAPS_DEPTH);
       route.Ok? && PricesAlong(env.spot, d, route.value).Some?
  }

  /** What a listing takes: the lesser of its limit, if any, and the balance. */
  lemma TakeIs(env: MakerEnv, a: CoinWithLimit)
    ensures Take(env, a).denom == a.denom && Take(env, a).amount <= env.balance(a.denom)
    ensures a.limit.Some? ==> Take(env, a).amount <= a.limit.value
    ensures Take(env, a).amount == env.balance(a.denom) || a.limit == Some(Take(env, a).amount)
  {
  }

  predicate AllSwappable(env: MakerEnv, st: MakerState, assets: seq<CoinWithLimit>) {
    forall i :: 0 <= i < |assets| && Take(env, assets[i]).amount > 0 ==> Swappable(env, st, assets[i].denom)
  }

  lemma MessageIff(env: MakerEnv, st: MakerState, coin: Coin)
    requires st.config.maxSpread <= ONE
    ensures MessageFor(env, st, coin).Ok? <==> Swappable(env, st, coin.denom)
  {
    hide Build, PricesAlong, Reaches;
    BuildOutcome(st.routes, coin.denom, st.config.astro, MAX_SWAPS_DEPTH);
  }

  lemma {:induction false} PlanIff(env: MakerEnv, st: MakerState, assets: seq<CoinWithLimit>)
    requires st.config.maxSpread <= ONE
    ensures Plan(env, st, assets).Ok? <==> AllSwappable(env, st, assets)
    ensures Plan(env, st, assets).Ok? ==>
      (Plan(env, st, assets).value != [] <==> exists i :: 0 <= i < |assets| && Take(env, assets[i]).amount > 0)
    decreases |assets|
  {
    if assets != [] {
      hide Swappable, MessageFor, Take;
      PlanIff(env, st, assets[1..]);
      TakeIs(env, assets[0]);
      MessageIff(env, st, Take(env, assets[0]));
      assert forall i :: 0 < i < |assets| ==> assets[i] == assets[1..][i - 1];
      assert forall i :: 0 <= i < |assets| - 1 ==> assets[1..][i] == assets[i + 1];
    }
  }

  /** Exactly when a collect is accepted: something is listed, the cooldown has passed, every listing that takes
      anything can be swapped, and at least one does. It stores the time and nothing else. */
  lemma CollectAcceptedIff(env: MakerEnv, st: MakerState, assets: seq<CoinWithLimit>)
    requires st.config.maxSpread <= ONE
    ensures
      var r := Collect(env, st, assets);
      && (r.Ok? <==>
           && (st.config.cooldown.Some? ==> st.lastCollect + st.config.cooldown.value <= env.time)
           && AllSwappable(env, st, assets) && exists i :: 0 <= i < |assets| && Take(env, assets[i]).amount > 0)
      && (r.Ok? ==> r.value.0 == st.(lastCollect := env.time))
  {
    hide Swappable, Plan, Take;
    PlanIff(env, st, assets);
  }

  /** A refused collect names its cause. */
  lemma CollectRefusal(env: MakerEnv, st: MakerState, assets: seq<CoinWithLimit>)
    requires st.config.maxSpread <= ONE && Collect(env, st, assets).Err?
    ensures
      var waits := st.config.cooldown.Some? && env.time < st.lastCollect + st.config.cooldown.value;
      match Collect(env, st, assets).error
      case EmptyAssets => assets == []
      case Cooldown(next) => assets != [] && waits && next == st.lastCollect + st.config.cooldown.value
      case NothingToCollect =>
        assets != [] && !waits && forall i :: 0 <= i < |assets| ==> Take(env, assets[i]).amount == 0
      case _ => assets != [] && !waits && !AllSwappable(env, st, assets)
  {
    hide Swappable, Plan, Take;
    PlanIff(env, st, assets);
    if Plan(env, st, assets).Err? { PlanErrors(env, st, assets); }
  }

  lemma {:induction false} PlanErrors(env: MakerEnv, st: MakerState, assets: seq<CoinWithLimit>)
    requires st.config.maxSpread <= ONE && Plan(env, st, assets).Err?
    ensures Plan(env, st, assets).error.BadRoute? || Plan(env, st, assets).error.QueryFailed?
    decreases |assets|
  {
    hide Build, Quote, MinOut, Take;
    if Take(env, assets[0]).amount == 0 || MessageFor(env, st, Take(env, assets[0])).Ok? {
      PlanErrors(env, st, assets[1..]);
    }
  }
}
