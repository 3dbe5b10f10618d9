/** Provide and withdraw: what they move, what a provider and a withdrawer can get at most and at least. */
module PoolLiquidity {
  import opened Outcome
  import opened FixedPoint
  import opened Bank
  import opened PoolTypes
  import opened PoolSpec
  import opened PoolMessages

  // ----- Provide -----

  /** The state a provide handler starts from: both deposits are in the pair's account. */
  function Deposited(pr: Pair, w: World, sender: Addr, dep: Duo<nat>): Option<World> {
    var m0 := MoveAny(w, sender, pr.addr, pr.denoms.x0, dep.x0);
    if m0.None? then None else MoveAny(m0.value, sender, pr.addr, pr.denoms.x1, dep.x1)
  }

  lemma DepositMoves(pr: Pair, w: World, sender: Addr, dep: Duo<nat>)
    requires pr.Valid() && sender != pr.addr && Deposited(pr, w, sender, dep).Some?
    ensures
      var m := Deposited(pr, w, sender, dep).value;
      && m == w.(ledger := m.ledger) && m.ledger.lpSupply == w.ledger.lpSupply
      && Total(m.ledger.bank, pr.lpDenom) == Total(w.ledger.bank, pr.lpDenom)
      && Bal(m.ledger.bank, pr.addr, pr.lpDenom) == Bal(w.ledger.bank, pr.addr, pr.lpDenom)
      && Reserves(pr, m) == Duo(Reserves(pr, w).x0 + dep.x0, Reserves(pr, w).x1 + dep.x1)
  {
    var m0 := MoveAny(w, sender, pr.addr, pr.denoms.x0, dep.x0).value;
    SendMoves(w.ledger.bank, sender, pr.addr, pr.denoms.x0, dep.x0);
    SendMoves(m0.ledger.bank, sender, pr.addr, pr.denoms.x1, dep.x1);
  }

  /** Minting, of any amount but zero, adds to one account, to the supply and to the total held, by the same amount. */
  lemma MintEffect(pair: Addr, g: Ledger, to: Addr, lp: Denom, n: nat)
    ensures RunMsg(pair, g, Mint(to, Coin(lp, n))).Some? <==> n > 0
    ensures n > 0 ==>
      var g' := RunMsg(pair, g, Mint(to, Coin(lp, n))).value;
      && g'.lpSupply == g.lpSupply + n
      && Total(g'.bank, lp) == Total(g.bank, lp) + n
      && (forall a, d :: Bal(g'.bank, a, d) == Bal(g.bank, a, d) + (if a == to && d == lp then n else 0))
  {
    TotalCredit(g.bank, to, lp, n, lp);
  }

  /** The mint messages of a provide. */
  function Mints(pr: Pair, locked: nat, to: Addr, n: nat): seq<Msg> {
    (if locked > 0 then [Mint(pr.addr, Coin(pr.lpDenom, locked))] else []) + [Mint(to, Coin(pr.lpDenom, n))]
  }

  lemma MintsEffect(pr: Pair, g: Ledger, locked: nat, to: Addr, n: nat)
    requires pr.Valid()
    ensures RunMsgs(pr.addr, g, Mints(pr, locked, to, n)).Some? <==> n > 0
    ensures n > 0 ==>
      var g' := RunMsgs(pr.addr, g, Mints(pr, locked, to, n)).value;
      && g'.lpSupply == g.lpSupply + locked + n
      && Total(g'.bank, pr.lpDenom) == Total(g.bank, pr.lpDenom) + locked + n
      && Bal(g'.bank, pr.addr, pr.lpDenom) >= Bal(g.bank, pr.addr, pr.lpDenom) + locked
      && Bal(g'.bank, pr.addr, pr.denoms.x0) == Bal(g.bank, pr.addr, pr.denoms.x0)
      && Bal(g'.bank, pr.addr, pr.denoms.x1) == Bal(g.bank, pr.addr, pr.denoms.x1)
  {
    var ms := Mints(pr, locked, to, n);
    if locked > 0 {
      MintEffect(pr.addr, g, pr.addr, pr.lpDenom, locked);
      var g1, last := RunMsg(pr.addr, g, ms[0]).value, Mint(to, Coin(pr.lpDenom, n));
      MintEffect(pr.addr, g1, to, pr.lpDenom, n);
      assert ms[1..] == [last];
      assert RunMsgs(pr.addr, g1, [last]) == RunMsg(pr.addr, g1, last);
    } else {
      MintEffect(pr.addr, g, to, pr.lpDenom, n);
      assert ms[1..] == [];
    }
  }

  function Locked(c: Curve, supply: nat): nat { if supply == 0 then c.minLiquidity else 0 }

  /** LP decimals that a provide earns. */
  function ShareFor(c: Curve, pr: Pair, env: Env, w: World, dep: Duo<nat>): Option<Dec> {
    ShareOf(c, w.config, c.ampGammaAt(w.config.state, env.time), Decs(pr, Reserves(pr, w)), Decs(pr, dep),
            ToDec(w.ledger.lpSupply, LP_TOKEN_PRECISION))
  }

  /** LP units handed to the provider by a successful provide. */
  function Minted(c: Curve, pr: Pair, env: Env, w: World, dep: Duo<nat>): Option<nat> {
    var share := ShareFor(c, pr, env, w, dep);
    if share.Some? then Some(ToUint(share.value, LP_TOKEN_PRECISION)) else None
  }

  /** The handler alone: it mints the provider's share, and on the first provide the locked minimum too. */
  lemma HandlerMints(c: Curve, pr: Pair, env: Env, w: World, sender: Addr, dep: Duo<nat>, tolerance: Option<Dec>,
                     receiver: Option<Addr>, before: World)
    requires ProvideLiquidity(c, pr, env, w, sender, dep, tolerance, receiver).Some?
    requires before == w.(ledger := before.ledger) && before.ledger.lpSupply == w.ledger.lpSupply
    requires Reserves(pr, w) == Duo(Reserves(pr, before).x0 + dep.x0, Reserves(pr, before).x1 + dep.x1)
    ensures Minted(c, pr, env, before, dep).Some?
    ensures
      var h := ProvideLiquidity(c, pr, env, w, sender, dep, tolerance, receiver).value;
      && h.msgs == Mints(pr, Locked(c, w.ledger.lpSupply), UnwrapOr(receiver, sender),
                         Minted(c, pr, env, before, dep).value)
      && h.world == w.(config := h.world.config, balances := Tracked(pr, w, Reserves(pr, w)))
      && h.world.config.trackBalances == w.config.trackBalances
  {
    hide ShareOf, Decs, ToUint;
    assert Duo(Reserves(pr, w).x0 - dep.x0, Reserves(pr, w).x1 - dep.x1) == Reserves(pr, before);
  }

  /** A provide transaction: both reserves grow by the deposits; the supply grows by the minted share, which is not
      zero, and on the first provide also by the minimum the pair keeps for itself. */
  lemma ProvideEffect(c: Curve, pr: Pair, env: Env, w: World, sender: Addr, assets: seq<Coin>, tolerance: Option<Dec>,
                      receiver: Option<Addr>, w': World)
    requires pr.Valid() && sender != pr.addr
    requires ProvideTx(c, pr, env, w, sender, assets, tolerance, receiver) == Some(w')
    ensures Deposits(pr, assets).Some? && Minted(c, pr, env, w, Deposits(pr, assets).value).Some?
    ensures
      var dep := Deposits(pr, assets).value;
      var locked := Locked(c, w.ledger.lpSupply);
      var minted := Minted(c, pr, env, w, dep).value;
      && Reserves(pr, w') == Duo(Reserves(pr, w).x0 + dep.x0, Reserves(pr, w).x1 + dep.x1)
      && minted > 0 && w'.ledger.lpSupply == w.ledger.lpSupply + locked + minted
      && Total(w'.ledger.bank, pr.lpDenom) == Total(w.ledger.bank, pr.lpDenom) + locked + minted
      && Bal(w'.ledger.bank, pr.addr, pr.lpDenom) >= Bal(w.ledger.bank, pr.addr, pr.lpDenom) + locked
      && w' == w.(ledger := w'.ledger, config := w'.config, balances := w'.balances)
      && w'.config.trackBalances == w.config.trackBalances
      && w'.balances == Tracked(pr, w, Reserves(pr, w'))
  {
    hide ProvideLiquidity, Minted, Send, RunMsgs, Mints;
    var dep := Deposits(pr, assets).value;
    var m := Deposited(pr, w, sender, dep).value;
    DepositMoves(pr, w, sender, dep);
    HandlerMints(c, pr, env, m, sender, dep, tolerance, receiver, w);
    MintsEffect(pr, m.ledger, Locked(c, w.ledger.lpSupply), UnwrapOr(receiver, sender),
                Minted(c, pr, env, w, dep).value);
  }

  /** The curve invariant of given reserves, at the price scale in force. */
  function InvariantOf(c: Curve, pr: Pair, env: Env, cfg: Config, r: Duo<nat>): Option<Dec> {
    c.calcD(Scaled(Decs(pr, r), cfg.state.price.priceScale), c.ampGammaAt(cfg.state, env.time))
  }

  function FeeOf(c: Curve, pr: Pair, cfg: Config, dep: Duo<nat>, r': Duo<nat>): Dec {
    c.provideFee(Scaled(Decs(pr, dep), cfg.state.price.priceScale), Scaled(Decs(pr, r'), cfg.state.price.priceScale),
                 cfg.params)
  }

  lemma MintedIsAccrued(c: Curve, pr: Pair, env: Env, w: World, dep: Duo<nat>, r': Duo<nat>)
    requires w.ledger.lpSupply > 0 && Minted(c, pr, env, w, dep).Some?
    requires r' == Duo(Reserves(pr, w).x0 + dep.x0, Reserves(pr, w).x1 + dep.x1)
    ensures InvariantOf(c, pr, env, w.config, Reserves(pr, w)).Some? && InvariantOf(c, pr, env, w.config, r').Some?
    ensures
      var share := AccruedShare(ToDec(w.ledger.lpSupply, LP_TOKEN_PRECISION),
                                InvariantOf(c, pr, env, w.config, Reserves(pr, w)).value,
                                InvariantOf(c, pr, env, w.config, r').value, FeeOf(c, pr, w.config, dep, r'));
      share.Some? && Minted(c, pr, env, w, dep) == Some(ToUint(share.value, LP_TOKEN_PRECISION))
  {
    hide AccruedShare, ToUint;
    ToDecAdd(Reserves(pr, w).x0, dep.x0, pr.precisions.x0);
    ToDecAdd(Reserves(pr, w).x1, dep.x1, pr.precisions.x1);
  }

  lemma FirstShareUnits(c: Curve, xcp: Dec)
    requires FirstShare(c, xcp).Some?
    ensures ToUint(FirstShare(c, xcp).value, LP_TOKEN_PRECISION) + c.minLiquidity == ToUint(xcp, LP_TOKEN_PRECISION)
  {
    var n := ToUint(FirstShare(c, xcp).value, LP_TOKEN_PRECISION);
    Distribute(n, c.minLiquidity, Unit(LP_TOKEN_PRECISION));
    FloorUnique(xcp, Unit(LP_TOKEN_PRECISION), n + c.minLiquidity);
  }

  lemma MintedFirst(c: Curve, pr: Pair, env: Env, w: World, dep: Duo<nat>, r': Duo<nat>)
    requires w.ledger.lpSupply == 0 && Minted(c, pr, env, w, dep).Some?
    requires r' == Duo(Reserves(pr, w).x0 + dep.x0, Reserves(pr, w).x1 + dep.x1)
    ensures InvariantOf(c, pr, env, w.config, r').Some?
    ensures
      var xcp := c.getXcp(InvariantOf(c, pr, env, w.config, r').value, w.config.state.price.priceScale);
      xcp.Some? && Minted(c, pr, env, w, dep).value + c.minLiquidity == ToUint(xcp.value, LP_TOKEN_PRECISION)
  {
    hide ToUint, FirstShare;
    ToDecAdd(Reserves(pr, w).x0, dep.x0, pr.precisions.x0);
    ToDecAdd(Reserves(pr, w).x1, dep.x1, pr.precisions.x1);
    FirstShareUnits(c, c.getXcp(InvariantOf(c, pr, env, w.config, r').value, w.config.state.price.priceScale).value);
  }

  /** The first provide has to bring both assets, and then the whole supply, the locked minimum included, is the
      curve's xcp of the deposits truncated to LP units. */
  lemma FirstProvideMintsXcp(c: Curve, pr: Pair, env: Env, w: World, sender: Addr, assets: seq<Coin>,
                             tolerance: Option<Dec>,
                             receiver: Option<Addr>, w': World)
    requires pr.Valid() && sender != pr.addr && w.ledger.lpSupply == 0
    requires ProvideTx(c, pr, env, w, sender, assets, tolerance, receiver) == Some(w')
    ensures Deposits(pr, assets).Some? && Deposits(pr, assets).value.x0 > 0 && Deposits(pr, assets).value.x1 > 0
    ensures InvariantOf(c, pr, env, w.config, Reserves(pr, w')).Some?
    ensures
      var xcp := c.getXcp(InvariantOf(c, pr, env, w.config, Reserves(pr, w')).value, w.config.state.price.priceScale);
      xcp.Some? && w'.ledger.lpSupply == ToUint(xcp.value, LP_TOKEN_PRECISION)
  {
    hide ToUint, ToDec, ShareOf, Minted, InvariantOf, RepricedByProvide, RunMsgs, Send, Total, Bal, Decs, Scaled;
    ProvideEffect(c, pr, env, w, sender, assets, tolerance, receiver, w');
    MintedFirst(c, pr, env, w, Deposits(pr, assets).value, Reserves(pr, w'));
  }

  /** A provide that is not the first never dilutes the curve invariant per LP unit, through all the
      truncations: with T units before and T' after, T' * D(before) <= T * D(after). */
  lemma ProvideNeverDilutes(c: Curve, pr: Pair, env: Env, w: World, sender: Addr, assets: seq<Coin>,
                            tolerance: Option<Dec>,
                            receiver: Option<Addr>, w': World)
    requires pr.Valid() && sender != pr.addr && w.ledger.lpSupply > 0
    requires ProvideTx(c, pr, env, w, sender, assets, tolerance, receiver) == Some(w')
    ensures InvariantOf(c, pr, env, w.config, Reserves(pr, w)).Some?
    ensures InvariantOf(c, pr, env, w.config, Reserves(pr, w')).Some?
    ensures
      var before := InvariantOf(c, pr, env, w.config, Reserves(pr, w)).value;
      var after := InvariantOf(c, pr, env, w.config, Reserves(pr, w')).value;
      w.ledger.lpSupply < w'.ledger.lpSupply && w'.ledger.lpSupply * before <= w.ledger.lpSupply * after
  {
    hide ProvideTx, Minted, AccruedShare, InvariantOf, FeeOf, ToUint, ToDec, Reserves, Tracked, Total, Bal;
    ProvideEffect(c, pr, env, w, sender, assets, tolerance, receiver, w');
    var dep := Deposits(pr, assets).value;
    MintedIsAccrued(c, pr, env, w, dep, Reserves(pr, w'));
    AccruedShareBounds(w.ledger.lpSupply, InvariantOf(c, pr, env, w.config, Reserves(pr, w)).value,
                       InvariantOf(c, pr, env, w.config,
                                   Reserves(pr, w')).value, FeeOf(c, pr, w.config, dep, Reserves(pr, w')));
  }

  /** The accrued share against the exact one, T * (newD - oldD) / oldD * (1 - fee): never more, and less
      only by the rounding of each step. */
  lemma AccruedShareBounds(total: nat, oldD: Dec, newD: Dec, fee: Dec)
    requires AccruedShare(ToDec(total, LP_TOKEN_PRECISION), oldD, newD, fee).Some?
    ensures
      var s := ToUint(AccruedShare(ToDec(total, LP_TOKEN_PRECISION), oldD, newD, fee).value, LP_TOKEN_PRECISION);
      s > 0 || oldD <= newD ==> (total + s) * oldD <= total * newD
    ensures
      var s := ToUint(AccruedShare(ToDec(total, LP_TOKEN_PRECISION), oldD, newD, fee).value, LP_TOKEN_PRECISION);
      (total * Unit(LP_TOKEN_PRECISION) * (newD - oldD) - ONE - oldD) * (ONE - fee)
        < (s + 1) * Unit(LP_TOKEN_PRECISION) * ONE * oldD
  {
    var u, t := Unit(LP_TOKEN_PRECISION), ToDec(total, LP_TOKEN_PRECISION);
    var grown := Div(Mul(t, newD), oldD);
    var share := AccruedShare(t, oldD, newD, fee).value;
    var s := ToUint(share, LP_TOKEN_PRECISION);
    ShareAtMostExact(u, total, s, share, grown, oldD, newD, fee);
    ShareAtLeastExact(u, total, s, share, grown, oldD, newD, fee);
  }

  lemma ShareAtMostExact(u: nat, total: nat, s: nat, share: Dec, grown: Dec, oldD: Dec, newD: Dec, fee: Dec)
    requires u > 0 && fee <= ONE && s * u <= share && grown * oldD <= total * u * newD
    requires share * ONE <= SatSub(grown, total * u) * (ONE - fee)
    ensures s > 0 || oldD <= newD ==> (total + s) * oldD <= total * newD
  {
    var gain := SatSub(grown, total * u);
    MulMono(ONE - fee, ONE, gain);
    CancelLe(share, gain, ONE);
    if gain > 0 {
      Distribute(total, s, u);
      MulMono((total + s) * u, grown, oldD);
      Rearrange((total + s), u, oldD);
      Rearrange(total, u, newD);
      CancelLe((total + s) * oldD, total * newD, u);
    } else {
      if s > 0 { MulMono(1, s, u); }
      if oldD <= newD { MulMono(oldD, newD, total); }
    }
  }

  lemma Rearrange(a: nat, b: nat, c: nat)
    ensures a * b * c == a * c * b
  {
  }

  lemma ShareAtLeastExact(u: nat, total: nat, s: nat, share: Dec, grown: Dec, oldD: Dec, newD: Dec, fee: Dec)
    requires oldD > 0 && fee <= ONE && share < s * u + u && total * u * newD < grown * oldD + oldD + ONE
    requires SatSub(grown, total * u) * (ONE - fee) < share * ONE + ONE
    ensures (total * u * (newD - oldD) - ONE - oldD) * (ONE - fee) < (s + 1) * u * ONE * oldD
  {
    var t, gain := total * u, SatSub(grown, total * u);
    GainAtLeast(t, grown, oldD, newD);
    var exact := t * (newD - oldD) - ONE - oldD;
    Scale(exact, gain * oldD, ONE - fee);
    Rearrange(gain, oldD, ONE - fee);
    Distribute(s, 1, u);
    Scale(share + 1, (s + 1) * u, ONE);
    Scale(gain * (ONE - fee) + 1, (s + 1) * u * ONE, oldD);
    SumTimes(gain * (ONE - fee), 1, oldD);
  }

  lemma Scale(a: int, b: int, c: nat)
    requires a <= b
    ensures a * c <= b * c
  {
  }

  lemma SumTimes(a: int, b: int, c: int)
    ensures (a + b) * c == a * c + b * c && c * (a + b) == c * a + c * b && c * (a - b) == c * a - c * b
  {
  }

  lemma GainAtLeast(t: nat, grown: nat, oldD: nat, newD: nat)
    requires t * newD < grown * oldD + oldD + ONE
    ensures t * (newD - oldD) - ONE - oldD <= SatSub(grown, t) * oldD
  {
    SumTimes(newD, oldD, t);
    if grown < t { Scale(grown, t, oldD); } else { Distribute(grown - t, t, oldD); }
  }

  // ----- Provide and the price -----

  /** dep is within tol of after * share / supply. */
  predicate NearPart(dep: Dec, after: Dec, share: Dec, supply: Dec, tol: Dec) {
    dep * supply <= after * share + tol * supply && after * share <= dep * supply + tol * supply
  }

  /** The deposit of one asset is within tol of its exact part of the reserve after it, the part being that of the new
      share in the new supply; and the reserve is not so large that the rounding of the ratio, which grows with it,
      could use up the rest of the minimum trade size. */
  predicate Balanced(c: Curve, pr: Pair, w: World, dep: Duo<nat>, share: Dec, i: Side, tol: nat) {
    var total := ToDec(w.ledger.lpSupply, LP_TOKEN_PRECISION);
    var scale := if i == 0 then ONE else w.config.state.price.priceScale;
    var depDec, after := Decs(pr, dep).At(i), Decs(pr, Reserves(pr, w)).At(i) + Decs(pr, dep).At(i);
    && NearPart(depDec, after, share, total + share, tol)
    && (tol + 1) * scale + 2 * ONE + Mul(after, scale) <= c.minTradeSize * scale
  }

  /** A provide that is not the first and is balanced in either of the assets leaves the whole configuration, every
      price in it included, as it was. */
  lemma BalancedProvideKeepsPrice(c: Curve, pr: Pair, env: Env, w: World, sender: Addr, assets: seq<Coin>,
                                  tolerance: Option<Dec>,
                                  receiver: Option<Addr>, w': World, i: Side, tol: nat)
    requires pr.Valid() && sender != pr.addr && w.ledger.lpSupply > 0
    requires ProvideTx(c, pr, env, w, sender, assets, tolerance, receiver) == Some(w')
    requires Deposits(pr, assets).Some? && ShareFor(c, pr, env, w, Deposits(pr, assets).value).Some?
    requires Balanced(c, pr, w, Deposits(pr, assets).value, ShareFor(c, pr, env, w, Deposits(pr, assets).value).value,
                      i, tol)
    ensures w'.config == w.config
  {
    hide ShareOf, Send, RunMsgs, Bal, ToDec, Decs, Balanced, RepricedByProvide, Mul, Div;
    var dep := Deposits(pr, assets).value;
    var m := Deposited(pr, w, sender, dep).value;
    DepositMoves(pr, w, sender, dep);
    var share := ShareFor(c, pr, env, w, dep).value;
    assert Duo(Reserves(pr, m).x0 - dep.x0, Reserves(pr, m).x1 - dep.x1) == Reserves(pr, w);
    BalancedIsNotRepriced(c, pr, env, w, dep, share, i, tol, tolerance);
  }

  /** The handler's own test, on the reserves before and the deposits. */
  lemma BalancedIsNotRepriced(c: Curve, pr: Pair, env: Env, w: World, dep: Duo<nat>, share: Dec, i: Side, tol: nat,
                              tolerance: Option<Dec>)
    requires w.ledger.lpSupply > 0 && Balanced(c, pr, w, dep, share, i, tol)
    ensures
      var before, depDec := Decs(pr, Reserves(pr, w)), Decs(pr, dep);
      var total := ToDec(w.ledger.lpSupply, LP_TOKEN_PRECISION);
      var newXp := Scaled(Duo(before.x0 + depDec.x0, before.x1 + depDec.x1), w.config.state.price.priceScale);
      var r := RepricedByProvide(c, AfterFirst(w.config, total), env.time, newXp, depDec, total, share, tolerance);
      total > 0 && (r.Some? ==> r.value == w.config)
  {
    hide Decs, Reserves, FloorDiv, ToDec;
    var total, scale := ToDec(w.ledger.lpSupply, LP_TOKEN_PRECISION), w.config.state.price.priceScale;
    var depDec, before := Decs(pr, dep), Decs(pr, Reserves(pr, w));
    var ratio := FloorDiv(share * ONE, total + share);
    if scale > 0 {
      if i == 0 {
        var after := before.x0 + depDec.x0;
        FloorUnique(after * ONE, ONE, after);
        FloorUnique(Mul(after, ratio) * ONE, ONE, Mul(after, ratio));
        DeviationBound(depDec.x0, after, after, ratio, Mul(after, ratio), Mul(after, ratio), share, total + share, ONE,
                       tol, c.minTradeSize);
      } else {
        var after := before.x1 + depDec.x1;
        var p := Mul(after, scale);
        DeviationBound(depDec.x1, after, p, ratio, Mul(p, ratio), Div(Mul(p, ratio), scale), share, total + share,
                       scale, tol, c.minTradeSize);
      }
    }
  }

  /** How far the computed balanced deposit q can be from the exact one, through the four roundings: of the scaled
      reserve p, of the ratio r, of their product m and of the division by the scale. */
  lemma DeviationBound(dep: nat, x: nat, p: nat, r: nat, m: nat, q: nat, s: nat, n: nat, scale: nat, tol: nat,
                       least: nat)
    requires n > 0 && scale > 0 && s <= n
    requires p * ONE <= x * scale < p * ONE + ONE && r * n <= s * ONE < r * n + n
    requires m * ONE <= p * r < m * ONE + ONE && q * scale <= m * ONE < q * scale + scale
    requires NearPart(dep, x, s, n, tol) && (tol + 1) * scale + 2 * ONE + p <= least * scale
    ensures Diff(dep, q) < least
  {
    NotTooHigh(x, p, r, q, s, n, scale);
    NotTooLow(x, p, r, q, s, n, scale);
    Distribute(tol, 1, scale);
    FarBelow(dep, q, x * s, n, scale, tol, least);
    FarAbove(dep, q, x * s, n, scale, tol, p, least);
  }

  lemma FarBelow(dep: nat, q: nat, exact: nat, n: nat, scale: nat, tol: nat, least: nat)
    requires n > 0 && scale > 0 && q * n <= exact && exact <= dep * n + tol * n && (tol + 1) * scale <= least * scale
    ensures q < dep + least
  {
    Distribute(dep, tol, n);
    CancelLe(q, dep + tol, n);
    CancelLe(tol + 1, least, scale);
  }

  lemma FarAbove(dep: nat, q: nat, exact: nat, n: nat, scale: nat, tol: nat, p: nat, least: nat)
    requires n > 0 && scale > 0 && dep * n <= exact + tol * n
    requires exact * scale + n <= (q * scale + scale + 2 * ONE + p) * n
    requires tol * scale + scale + 2 * ONE + p <= least * scale
    ensures dep < q + least
  {
    Scale(dep * n, exact + tol * n, scale);
    SumTimes(exact, tol * n, scale);
    Rearrange(dep, n, scale);
    Rearrange(tol, n, scale);
    var gap := q * scale + scale + 2 * ONE + p;
    SumTimes(gap, tol * scale, n);
    CancelLt(dep * scale, gap + tol * scale, n);
    Distribute(q, least, scale);
    CancelLt(dep, q + least, scale);
  }

  lemma NotTooHigh(x: nat, p: nat, r: nat, q: nat, s: nat, n: nat, scale: nat)
    requires scale > 0 && q * scale <= p * r && p * ONE <= x * scale && r * n <= s * ONE
    ensures q * n <= x * s
  {
    Scale(q * scale, p * r, n);
    Scale(r * n, s * ONE, p);
    Scale(p * ONE, x * scale, s);
    assert p * r * n == r * n * p;
    assert s * ONE * p == p * ONE * s;
    Rearrange(q, scale, n);
    Rearrange(x, scale, s);
    CancelLe(q * n, x * s, scale);
  }

  lemma NotTooLow(x: nat, p: nat, r: nat, q: nat, s: nat, n: nat, scale: nat)
    requires s <= n && p * r < q * scale + scale + ONE && x * scale < p * ONE + ONE && s * ONE < r * n + n
    ensures x * s * scale + n <= (q * scale + scale + 2 * ONE + p) * n
  {
    Scale(x * scale, p * ONE + ONE, s);
    Rearrange(x, scale, s);
    SumTimes(p * ONE, ONE, s);
    Scale(s, n, ONE);
    Scale(s * ONE, r * n + n, p);
    assert s * ONE * p == p * ONE * s;
    SumTimes(r * n, n, p);
    assert r * n * p == p * r * n;
    Scale(p * r + 1, q * scale + scale + ONE, n);
    Distribute(p * r, 1, n);
    SumTimes(q * scale + scale + ONE, ONE + p, n);
    SumTimes(ONE, p, n);
  }

  // ----- Withdraw -----

  /** The messages of a withdraw: both refunds, then the burn. */
  function RefundMessages(pr: Pair, sender: Addr, refund: Duo<nat>, amount: nat): seq<Msg> {
    [Pay(sender, Coin(pr.denoms.x0, refund.x0)), Pay(sender, Coin(pr.denoms.x1, refund.x1)),
     Burn(pr.addr, Coin(pr.lpDenom, amount))]
  }

  lemma WithdrawMessages(pr: Pair, g: Ledger, sender: Addr, refund: Duo<nat>, amount: nat)
    requires pr.Valid() && sender != pr.addr
    requires RunMsgs(pr.addr, g, RefundMessages(pr, sender, refund, amount)).Some?
    ensures
      var g' := RunMsgs(pr.addr, g, RefundMessages(pr, sender, refund, amount)).value;
      && amount <= g.lpSupply && g'.lpSupply == g.lpSupply - amount
      && Total(g'.bank, pr.lpDenom) == Total(g.bank, pr.lpDenom) - amount
      && Bal(g'.bank, pr.addr, pr.lpDenom) == Bal(g.bank, pr.addr, pr.lpDenom) - amount
      && Bal(g'.bank, pr.addr, pr.denoms.x0) == Bal(g.bank, pr.addr, pr.denoms.x0) - refund.x0
      && Bal(g'.bank, pr.addr, pr.denoms.x1) == Bal(g.bank, pr.addr, pr.denoms.x1) - refund.x1
      && Bal(g'.bank, sender, pr.denoms.x0) == Bal(g.bank, sender, pr.denoms.x0) + refund.x0
      && Bal(g'.bank, sender, pr.denoms.x1) == Bal(g.bank, sender, pr.denoms.x1) + refund.x1
  {
    var pays := [Pay(sender, Coin(pr.denoms.x0, refund.x0)), Pay(sender, Coin(pr.denoms.x1, refund.x1))];
    var burn := Burn(pr.addr, Coin(pr.lpDenom, amount));
    assert pays + [burn] == RefundMessages(pr, sender, refund, amount);
    RunConcat(pr.addr, g, pays, [burn]);
    PayEffect(pr.addr, g, pays, pr.lpDenom);
    TwoPays(pays[0], pays[1]);
    var g2 := RunMsgs(pr.addr, g, pays).value;
    assert RunMsgs(pr.addr, g2, [burn]) == RunMsg(pr.addr, g2, burn);
    TotalDebit(g2.bank, pr.addr, pr.lpDenom, amount, pr.lpDenom);
  }

  lemma TwoPays(p: Msg, q: Msg)
    requires p.Pay? && q.Pay?
    ensures forall d :: (
      PaidOut([p, q], d) ==
      (if p.coin.denom == d then p.coin.amount else 0) + if q.coin.denom == d then q.coin.amount else 0)
    ensures forall a, d :: (
      PaidTo([p, q], a, d) ==
      (if p.to == a && p.coin.denom == d then p.coin.amount else 0)
      + if q.to == a && q.coin.denom == d then q.coin.amount else 0)
  {
    assert [p, q][1..] == [q] && [q][1..] == [];
    forall d ensures PaidOut([q], d) == if q.coin.denom == d then q.coin.amount else 0 { }
    forall a, d ensures PaidTo([q], a, d) == if q.to == a && q.coin.denom == d then q.coin.amount else 0 { }
  }

  /** A withdraw transaction pays the queried share of both reserves to the sender, burns exactly the LP units
      sent, and leaves the pair's own LP units alone. */
  lemma WithdrawEffect(c: Curve, pr: Pair, env: Env, w: World, sender: Addr, funds: seq<Coin>, assets: seq<Coin>,
                       w': World)
    requires pr.Valid() && sender != pr.addr
    requires WithdrawTx(c, pr, env, w, sender, funds, assets) == Some(w')
    ensures |funds| == 1 && 1 <= funds[0].amount < w.ledger.lpSupply
    ensures
      var refund := QueryShare(pr, w, funds[0].amount);
      && refund.x0 <= Reserves(pr, w).x0 && refund.x1 <= Reserves(pr, w).x1
      && Reserves(pr, w') == Duo(Reserves(pr, w).x0 - refund.x0, Reserves(pr, w).x1 - refund.x1)
      && Bal(w'.ledger.bank, sender, pr.denoms.x0) == Bal(w.ledger.bank, sender, pr.denoms.x0) + refund.x0
      && Bal(w'.ledger.bank, sender, pr.denoms.x1) == Bal(w.ledger.bank, sender, pr.denoms.x1) + refund.x1
    ensures w'.ledger.lpSupply == w.ledger.lpSupply - funds[0].amount
    ensures Total(w'.ledger.bank, pr.lpDenom) == Total(w.ledger.bank, pr.lpDenom) - funds[0].amount
    ensures Bal(w'.ledger.bank, pr.addr, pr.lpDenom) == Bal(w.ledger.bank, pr.addr, pr.lpDenom)
    ensures w' == w.(ledger := w'.ledger, config := w'.config, balances := Tracked(pr, w, Reserves(pr, w')))
    ensures w'.config.trackBalances == w.config.trackBalances
  {
    hide RunMsgs, Refund, ShareInAsset, Decs, Send;
    var amount := funds[0].amount;
    var m := Move(w, sender, pr.addr, pr.lpDenom, amount).value;
    SendMoves(w.ledger.bank, sender, pr.addr, pr.lpDenom, amount);
    assert Reserves(pr, m) == Reserves(pr, w);
    WithdrawMessages(pr, m.ledger, sender, QueryShare(pr, w, amount), amount);
  }

  /** What `amount` LP units out of `total` are paid, against the exact share of `amount - 1` units:
      never more, and less only by the rounding of the ratio and of the two truncations. */
  lemma RefundBounds(pr: Pair, held: Duo<nat>, amount: nat, total: nat, i: Side)
    requires 1 <= amount && 0 < total
    ensures Refund(pr, held, amount, total).At(i) * total <= held.At(i) * (amount - 1)
    ensures held.At(i) * ((amount - 1) * ONE - total) < (Refund(pr, held, amount, total).At(i) + 2) * ONE * total
  {
    var p := pr.precisions.At(i);
    var ratio := FloorDiv((amount - 1) * ONE, total);
    var share := Mul(ToDec(held.At(i), p), ratio);
    RefundAtMost(held.At(i), amount - 1, total, Unit(p), ratio, share, Refund(pr, held, amount, total).At(i));
    RefundAtLeast(held.At(i), amount - 1, total, Unit(p), ratio, share, Refund(pr, held, amount, total).At(i));
  }

  lemma RefundAtMost(r: nat, a: nat, t: nat, u: nat, ratio: nat, share: nat, x: nat)
    requires u > 0 && ratio * t <= a * ONE && share * ONE <= r * u * ratio && x * u <= share
    ensures x * t <= r * a
  {
    MulMono(x * u, share, ONE);
    assert x * ONE * u <= r * ratio * u by { Rearrange(x, u, ONE); Rearrange(r, u, ratio); }
    CancelLe(x * ONE, r * ratio, u);
    MulMono(x * ONE, r * ratio, t);
    assert r * ratio * t == r * (ratio * t) <= r * (a * ONE) by { MulMono(ratio * t, a * ONE, r); }
    assert x * t * ONE <= r * a * ONE by { Rearrange(x, ONE, t); }
    CancelLe(x * t, r * a, ONE);
  }

  lemma RefundAtLeast(r: nat, a: nat, t: nat, u: nat, ratio: nat, share: nat, x: nat)
    requires u > 0 && t > 0 && a * ONE < ratio * t + t && r * u * ratio < share * ONE + ONE && share < x * u + u
    ensures r * (a * ONE - t) < (x + 2) * ONE * t
  {
    assert r * ratio < (x + 2) * ONE by {
      Distribute(x, 1, u);
      MulMono(share + 1, (x + 1) * u, ONE);
      MulMono(1, u, ONE);
      assert (x + 1) * u * ONE + u * ONE == (x + 2) * ONE * u;
      Rearrange(r, u, ratio);
      CancelLt(r * ratio, (x + 2) * ONE, u);
    }
    assert r * (a * ONE - t) <= r * (ratio * t) by {
      if a * ONE >= t { MulMono(a * ONE - t, ratio * t, r); }
    }
    assert r * (ratio * t) == r * ratio * t;
    assert r * ratio * t < (x + 2) * ONE * t;
  }

  /** Burning LP units from t to t' takes the reserve from r to r'; if anything was burned, the remaining
      units are backed at least as well as before, with the worth of one unit to spare. */
  predicate Backed(r: nat, r': nat, t: nat, t': nat) {
    t' <= t && r' <= r && (t' == t ==> r' == r) && (t' < t ==> r' * t >= r * (t' + 1))
  }

  /** One withdrawal leaves the remaining holders no poorer per LP unit. */
  lemma WithdrawKeepsBacking(c: Curve, pr: Pair, env: Env, w: World, sender: Addr, funds: seq<Coin>, assets: seq<Coin>,
                             w': World, i: Side)
    requires pr.Valid() && sender != pr.addr
    requires WithdrawTx(c, pr, env, w, sender, funds, assets) == Some(w')
    ensures w'.ledger.lpSupply < w.ledger.lpSupply
    ensures Backed(Reserves(pr, w).At(i), Reserves(pr, w').At(i), w.ledger.lpSupply, w'.ledger.lpSupply)
  {
    hide WithdrawTx, Refund, Reserves;
    WithdrawEffect(c, pr, env, w, sender, funds, assets, w');
    RefundBounds(pr, Reserves(pr, w), funds[0].amount, w.ledger.lpSupply, i);
    OneBacking(Reserves(pr, w).At(i), QueryShare(pr, w, funds[0].amount).At(i), funds[0].amount, w.ledger.lpSupply);
  }

  lemma OneBacking(r: nat, x: nat, a: nat, t: nat)
    requires 1 <= a <= t && x <= r && x * t <= r * (a - 1)
    ensures Backed(r, r - x, t, t - a)
  {
    assert (r - x) * t == r * t - x * t;
    assert r * (t - a + 1) == r * t - r * (a - 1);
  }

  lemma ChainBacking(r: nat, r1: nat, r2: nat, t: nat, t1: nat, t2: nat)
    requires Backed(r, r1, t, t1) && Backed(r1, r2, t1, t2)
    ensures Backed(r, r2, t, t2)
  {
    if t2 < t1 < t {
      MulMono(t1, t1 + 1, r);
      MulMono(r * t1, r1 * t, t2 + 1);
      MulMono(r1 * (t2 + 1), r2 * t1, t);
      Rearrange(r, t1, t2 + 1);
      Rearrange(r1, t, t2 + 1);
      Rearrange(r2, t1, t);
      CancelLe(r * (t2 + 1), r2 * t, t1);
    }
  }

  /** A run in which only withdrawals happen, by anyone but the pair. */
  predicate OnlyWithdrawals(pr: Pair, steps: seq<Step>) {
    forall i :: 0 <= i < |steps| ==> steps[i].action.Withdraw? && steps[i].action.sender != pr.addr
  }

  lemma WithdrawalStep(c: Curve, pr: Pair, w: World, s: Step, i: Side)
    requires pr.Valid() && s.action.Withdraw? && s.action.sender != pr.addr
    ensures
      var w' := Exec(c, pr, w, s);
      Backed(Reserves(pr, w).At(i), Reserves(pr, w').At(i), w.ledger.lpSupply, w'.ledger.lpSupply)
  {
    hide WithdrawTx, Reserves;
    var w' := WithdrawTx(c, pr, s.env, w, s.action.sender, s.action.funds, s.action.wanted);
    if w'.Some? {
      WithdrawKeepsBacking(c, pr, s.env, w, s.action.sender, s.action.funds, s.action.wanted, w'.value, i);
    }
  }

  lemma {:induction false} WithdrawalsKeepBacking(c: Curve, pr: Pair, w: World, steps: seq<Step>, i: Side)
    requires pr.Valid() && OnlyWithdrawals(pr, steps)
    ensures
      var v := Run(c, pr, w, steps);
      Backed(Reserves(pr, w).At(i), Reserves(pr, v).At(i), w.ledger.lpSupply, v.ledger.lpSupply)
    decreases |steps|
  {
    hide Exec, Reserves, Backed;
    if steps == [] {
      WholeBacking(Reserves(pr, w).At(i), w.ledger.lpSupply);
    } else {
      var n := |steps| - 1;
      WithdrawalsKeepBacking(c, pr, w, steps[..n], i);
      var u := Run(c, pr, w, steps[..n]);
      WithdrawalStep(c, pr, u, steps[n], i);
      var v := Exec(c, pr, u, steps[n]);
      ChainBacking(Reserves(pr, w).At(i), Reserves(pr, u).At(i), Reserves(pr, v).At(i),
                   w.ledger.lpSupply, u.ledger.lpSupply, v.ledger.lpSupply);
    }
  }

  lemma WholeBacking(r: nat, t: nat)
    ensures Backed(r, r, t, t)
  {
  }

  /** Splitting a withdrawal into any number of transactions never pays more than the exact pro-rata share of
      one. If the run burns A = T - T' > 0 units, its total payout R - R' of each asset satisfies
      (R - R') * T <= R * (A - 1). */
  lemma SplittingNeverPaysMore(c: Curve, pr: Pair, w: World, steps: seq<Step>, i: Side)
    requires pr.Valid() && OnlyWithdrawals(pr, steps)
    ensures
      var v := Run(c, pr, w, steps);
      var r, r', t, t' := Reserves(pr, w).At(i), Reserves(pr, v).At(i), w.ledger.lpSupply, v.ledger.lpSupply;
      && t' <= t && r' <= r && (t' == t ==> r' == r)
      && (t' < t ==> (r - r') * t <= r * (t - t' - 1))
  {
    hide Run, Reserves;
    WithdrawalsKeepBacking(c, pr, w, steps, i);
    var v := Run(c, pr, w, steps);
    var r, r', t, t' := Reserves(pr, w).At(i), Reserves(pr, v).At(i), w.ledger.lpSupply, v.ledger.lpSupply;
    if t' < t { SumTimes(r, r', t); SumTimes(t, t' + 1, r); }
  }
}
