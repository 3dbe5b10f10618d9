/** The maker contract and its routes builder as mutable objects, proved to do what MakerSpec says. */
module MakerContract {
  import opened Outcome
  import opened FixedPoint
  import opened Bank
  import opened MakerRoutes
  import opened MakerQuote
  import Spec = MakerSpec

  predicate Submap(small: Routes, big: Routes) {
    forall k :: k in small ==> k in big && big[k] == small[k]
  }

  class RoutesBuilder {
    var cache: Routes

    constructor ()
      ensures cache == map[]
    {
      cache := map[];
    }

    /** Walks the routes from denomIn, consulting the cache before storage and filling it on the way. The result is
        that of a cache-free walk of storage overlaid with the cache, and what the two hold together is unchanged. */
    method BuildRoutes(storage: Routes, denomIn: Denom, astro: Denom, depth: nat)
      returns (r: Result<seq<RouteStep>, RouteError>)
      modifies this
      ensures r == Build(storage + old(cache), denomIn, astro, depth)
      ensures storage + cache == storage + old(cache)
      ensures Submap(old(cache), cache) && Submap(cache, storage + old(cache))
    {
      ghost var all := storage + cache;
      var prev, routes := denomIn, [];
      AfterNone(Trail(all, denomIn, astro, depth));
      var i := 0;
      while i < depth
        invariant 0 <= i <= depth
        invariant storage + cache == all && Submap(old(cache), cache) && Submap(cache, all)
        invariant prev == At(denomIn, routes, |routes|)
        invariant Trail(all, denomIn, astro, depth) == Prefixed(routes, Trail(all, prev, astro, depth - i))
        decreases depth - i
      {
        if prev == astro { break; }
        var step: RouteStep;
        if prev in cache {
          step := cache[prev];
        } else {
          if prev !in storage { return Err(RouteNotFound(prev)); }
          step := storage[prev];
          cache := cache[prev := step];
        }
        AfterStep(routes, step, Trail(all, step.denomOut, astro, depth - i - 1));
        routes := routes + [step];
        prev := step.denomOut;
        i := i + 1;
      }
      assert routes + [] == routes;
      if prev != astro {
        var met := seq(|routes|, j requires 0 <= j < |routes| => routes[j].denomOut);
        return Err(FailedToBuildRoute(denomIn, [denomIn] + met));
      }
      return Ok(routes);
    }
  }

  class Maker {
    var config: Spec.MakerConfig
    var routes: Routes
    var lastCollect: nat

    function State(): Spec.MakerState
      reads this
    {
      Spec.MakerState(config, routes, lastCollect)
    }

    constructor (st: Spec.MakerState)
      ensures State() == st
    {
      config, routes, lastCollect := st.config, st.routes, st.lastCollect;
    }

    /** update_config: each given field is checked and replaced. */
    method UpdateConfig(env: Spec.MakerEnv, sender: Addr, astro: Option<Denom>, satellite: Option<Addr>,
                        maxSpread: Option<Dec>, cooldown: Option<nat>) returns (error: Option<Spec.MakerError>)
      modifies this`config
      ensures
        var r := Spec.UpdateConfig(env, old(State()), sender, astro, satellite, maxSpread, cooldown);
        && (error.None? ==> r == Result.Ok(State()))
        && (error.Some? ==> r == Err(error.value) && State() == old(State()))
    {
      if sender != config.owner { return Some(Spec.Unauthorized); }
      var updated := config;
      if astro.Some? {
        if !env.denomOk(astro.value) { return Some(Spec.InvalidDenom); }
        updated := updated.(astro := astro.value);
      }
      if satellite.Some? {
        if !env.addressOk(satellite.value) { return Some(Spec.InvalidAddress); }
        updated := updated.(satellite := satellite.value);
      }
      if maxSpread.Some? {
        if Spec.MAX_ALLOWED_SPREAD < maxSpread.value { return Some(Spec.MaxSpreadTooHigh); }
        updated := updated.(maxSpread := maxSpread.value);
      }
      if cooldown.Some? {
        if !Spec.CooldownOk(cooldown) { return Some(Spec.IncorrectCooldown); }
        updated := updated.(cooldown := cooldown);
      }
      config := updated;
      return None;
    }

    /** set_pool_routes: write each route to storage and to the builder's cache, then walk every updated key.
        An error anywhere undoes the writes. */
    method SetPoolRoutes(env: Spec.MakerEnv, sender: Addr,
                         msg: seq<Spec.PoolRoute>) returns (error: Option<Spec.MakerError>)
      modifies this`routes
      ensures
        var r := Spec.SetPoolRoutes(env, old(State()), sender, msg);
        && (error.None? ==> r == Result.Ok(State()))
        && (error.Some? ==> r == Err(error.value) && State() == old(State()))
    {
      hide Spec.Flaw, Spec.FirstFlaw, Spec.FirstLost, Spec.Updated, Build;
      if msg == [] { return Some(Spec.EmptyRoutes); }
      if !Spec.AllUnique(msg) { return Some(Spec.DuplicatedRoutes); }
      if sender != config.owner { return Some(Spec.Unauthorized); }
      var before := routes;
      var builder := new RoutesBuilder();
      WholeMessage(env, config.astro, before, msg);
      for i := 0 to |msg|
        invariant routes == Spec.Updated(before, msg[..i])
        invariant Submap(builder.cache, routes)
        invariant Spec.FirstFlaw(env, config.astro, msg) == Spec.FirstFlaw(env, config.astro, msg[i..])
      {
        var route := msg[i];
        NextRoute(env, config.astro, before, msg, i);
        var flaw := Spec.Flaw(env, config.astro, route);
        if flaw.Some? {
          routes := before;
          return flaw;
        }
        routes := routes[route.denomIn := Spec.StepOf(route)];
        builder.cache := builder.cache[route.denomIn := Spec.StepOf(route)];
      }
      for i := 0 to |msg|
        invariant Submap(builder.cache, routes) && routes == Spec.Updated(before, msg)
        invariant Spec.FirstLost(routes, config.astro, msg) == Spec.FirstLost(routes, config.astro, msg[i..])
      {
        NextWalk(routes, config.astro, msg, i);
        CacheAddsNothing(routes, builder.cache);
        var built := builder.BuildRoutes(routes, msg[i].denomIn, config.astro, MAX_SWAPS_DEPTH);
        if built.Err? {
          routes := before;
          return Some(Spec.BadRoute(built.error));
        }
      }
      return None;
    }

    /** collect: one swap message for each listed asset with something to take, all walks sharing one builder. */
    method Collect(env: Spec.MakerEnv, assets: seq<Spec.CoinWithLimit>)
      returns (r: Result<seq<Spec.SwapMsg>, Spec.MakerError>)
      modifies this`lastCollect
      ensures
        var spec := Spec.Collect(env, old(State()), assets);
        && (r.Ok? ==> spec == Result.Ok((State(), r.value)))
        && (r.Err? ==> spec == Err(r.error) && State() == old(State()))
    {
      hide Spec.Plan, Build, Quote, MinOut;
      if assets == [] { return Err(Spec.EmptyAssets); }
      ghost var start := State();
      if config.cooldown.Some? && env.time < lastCollect + config.cooldown.value {
        return Err(Spec.Cooldown(lastCollect + config.cooldown.value));
      }
      var messages: seq<Spec.SwapMsg> := [];
      var builder := new RoutesBuilder();
      WholePlan(env, start, assets);
      for i := 0 to |assets|
        invariant State() == start && Submap(builder.cache, routes)
        invariant Spec.Plan(env, start, assets) == Spec.Before(messages, Spec.Plan(env, start, assets[i..]))
      {
        NextAsset(env, start, assets, i);
        var held := env.balance(assets[i].denom);
        var amount := if assets[i].limit.Some? then Min(assets[i].limit.value, held) else held;
        var balance := Coin(assets[i].denom, amount);
        if amount == 0 { continue; }
        CacheAddsNothing(routes, builder.cache);
        var built := builder.BuildRoutes(routes, balance.denom, config.astro, MAX_SWAPS_DEPTH);
        if built.Err? { return Err(Spec.BadRoute(built.error)); }
        var out := QueryOutAmount(env.spot, balance.amount, balance.denom, built.value);
        if out.None? { return Err(Spec.QueryFailed); }
        if ONE < config.maxSpread { return Err(Spec.Overflow); }
        var msg := Spec.SwapMsg(built.value, balance, MinOut(config.maxSpread, out.value), false);
        MessageBefore(messages, msg, Spec.Plan(env, start, assets[i + 1..]));
        messages := messages + [msg];
      }
      assert messages + [] == messages;
      if messages == [] { return Err(Spec.NothingToCollect); }
      var last := |messages| - 1;
      messages := messages[last := messages[last].(replyOnSuccess := true)];
      lastCollect := env.time;
      return Ok(messages);
    }

    /** A whole transaction. */
    method Transact(s: Spec.MakerStep)
      modifies this
      ensures State() == Spec.Exec(old(State()), s)
    {
      match s.action
      case SetRoutes(sender, msg) => var _ := SetPoolRoutes(s.env, sender, msg);
      case Configure(sender, astro, satellite, maxSpread, cooldown) =>
        var _ := UpdateConfig(s.env, sender, astro, satellite, maxSpread, cooldown);
      case Gather(assets) => var _ := Collect(s.env, assets);
    }
  }

  lemma CacheAddsNothing(routes: Routes, cache: Routes)
    requires Submap(cache, routes)
    ensures routes + cache == routes
  {
  }

  lemma WholeMessage(env: Spec.MakerEnv, astro: Denom, before: Routes, msg: seq<Spec.PoolRoute>)
    ensures msg[0..] == msg && msg[..|msg|] == msg && Spec.Updated(before, msg[..0]) == before
    ensures Spec.FirstFlaw(env, astro, msg[|msg|..]).None?
    ensures forall routes :: Spec.FirstLost(routes, astro, msg[|msg|..]).None?
  {
  }

  /** One more route of the message checked and written. */
  lemma NextRoute(env: Spec.MakerEnv, astro: Denom, before: Routes, msg: seq<Spec.PoolRoute>, i: nat)
    requires i < |msg|
    ensures Spec.FirstFlaw(env, astro, msg[i..]) ==
      if Spec.Flaw(env, astro, msg[i]).Some? then Spec.Flaw(env, astro, msg[i])
      else Spec.FirstFlaw(env, astro, msg[i + 1..])
    ensures Spec.Updated(before, msg[..i + 1]) == Spec.Updated(before, msg[..i])[msg[i].denomIn := Spec.StepOf(msg[i])]
  {
    hide Spec.Flaw;
    assert msg[i..][1..] == msg[i + 1..] && msg[..i + 1][..i] == msg[..i];
  }

  lemma WholePlan(env: Spec.MakerEnv, st: Spec.MakerState, assets: seq<Spec.CoinWithLimit>)
    ensures Spec.Plan(env, st, assets) == Spec.Before([], Spec.Plan(env, st, assets[0..]))
    ensures Spec.Plan(env, st, assets[|assets|..]) == Result.Ok([])
  {
    assert assets[0..] == assets;
    NothingBefore(Spec.Plan(env, st, assets));
  }

  /** One more listed asset. */
  lemma NextAsset(env: Spec.MakerEnv, st: Spec.MakerState, assets: seq<Spec.CoinWithLimit>, i: nat)
    requires i < |assets|
    ensures
      var coin := Spec.Take(env, assets[i]);
      var m, rest := Spec.MessageFor(env, st, coin), Spec.Plan(env, st, assets[i + 1..]);
      Spec.Plan(env, st, assets[i..]) ==
        if coin.amount == 0 then rest else if m.Err? then Err(m.error) else Spec.Before([m.value], rest)
  {
    hide Spec.MessageFor, Spec.Take;
    assert assets[i..][1..] == assets[i + 1..];
  }

  /** One more updated key walked. */
  lemma NextWalk(routes: Routes, astro: Denom, msg: seq<Spec.PoolRoute>, i: nat)
    requires i < |msg|
    ensures
      var built := Build(routes, msg[i].denomIn, astro, MAX_SWAPS_DEPTH);
      Spec.FirstLost(routes, astro, msg[i..]) ==
        if built.Err? then Some(built.error) else Spec.FirstLost(routes, astro, msg[i + 1..])
  {
    hide Build;
    assert msg[i..][1..] == msg[i + 1..];
  }

  lemma NothingBefore(r: Result<seq<Spec.SwapMsg>, Spec.MakerError>)
    ensures Spec.Before([], r) == r
  {
    if r.Ok? { assert [] + r.value == r.value; }
  }

  lemma MessageBefore(ms: seq<Spec.SwapMsg>, m: Spec.SwapMsg, r: Result<seq<Spec.SwapMsg>, Spec.MakerError>)
    ensures Spec.Before(ms, Spec.Before([m], r)) == Spec.Before(ms + [m], r)
  {
    if r.Ok? { assert ms + ([m] + r.value) == (ms + [m]) + r.value; }
  }

  lemma AfterNone(r: Result<seq<RouteStep>, Denom>)
    ensures Prefixed([], r) == r
  {
    if r.Ok? { assert [] + r.value == r.value; }
  }

  lemma AfterStep(p: seq<RouteStep>, s: RouteStep, r: Result<seq<RouteStep>, Denom>)
    ensures Prefixed(p, Prefixed([s], r)) == Prefixed(p + [s], r)
  {
    if r.Ok? { assert p + ([s] + r.value) == (p + [s]) + r.value; }
  }
}
