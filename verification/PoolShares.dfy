/** Exactly which provides and withdraws are accepted, and the price state that each leaves behind. */
module PoolShares {
  import opened Outcome
  import opened FixedPoint
  import opened Bank
  import opened PoolTypes
  import opened PoolSpec
  import opened PoolMessages
  import opened PoolLiquidity

  // ----- What is deposited -----

  /** The amount a list of coins names of denom d. */
  function Named(assets: seq<Coin>, d: Denom): nat {
    if assets == [] then 0 else (if assets[0].denom == d then assets[0].amount else 0) + Named(assets[1..], d)
  }

  lemma NamedInTwo(a: Coin, b: Coin, d: Denom)
    ensures Named([a], d) == if a.denom == d then a.amount else 0
    ensures Named([a, b], d) == (if a.denom == d then a.amount else 0) + if b.denom == d then b.amount else 0
  {
    assert [a][1..] == [] && [a, b][1..] == [b] && [b][1..] == [];
    assert Named([b], d) == if b.denom == d then b.amount else 0;
  }

  /** Which lists of assets can be provided, and what is then deposited of each: what the list names of it. */
  lemma DepositsIff(pr: Pair, assets: seq<Coin>, dep: Duo<nat>)
    requires pr.Valid()
    ensures Deposits(pr, assets) == Some(dep) <==>
      && 1 <= |assets| <= 2 && (|assets| == 2 ==> assets[0].denom != assets[1].denom)
      && (forall k :: 0 <= k < |assets| ==> assets[k].denom == pr.denoms.x0 || assets[k].denom == pr.denoms.x1)
      && dep.x0 == Named(assets, pr.denoms.x0) && dep.x1 == Named(assets, pr.denoms.x1)
  {
    hide Named;
    if 1 <= |assets| <= 2 {
      var a, b := assets[0], assets[|assets| - 1];
      assert assets == if |assets| == 1 then [a] else [a, b];
      NamedInTwo(a, b, pr.denoms.x0);
      NamedInTwo(a, b, pr.denoms.x1);
      OneOrTwo(pr, assets);
    }
  }

  lemma OneOrTwo(pr: Pair, assets: seq<Coin>)
    requires 1 <= |assets| <= 2
    ensures (forall k :: 0 <= k < |assets| ==> assets[k].denom == pr.denoms.x0 || assets[k].denom == pr.denoms.x1) <==>
      pr.SideOf(assets[0].denom).Some? && pr.SideOf(assets[|assets| - 1].denom).Some?
  {
  }

  // ----- The share -----

  /** Reserves in decimals with the deposits in. */
  function DecsAfter(pr: Pair, w: World, dep: Duo<nat>): Duo<Dec> {
    Duo(ToDec(Bal(w.ledger.bank, pr.addr, pr.denoms.x0) + dep.x0, pr.precisions.x0),
        ToDec(Bal(w.ledger.bank, pr.addr, pr.denoms.x1) + dep.x1, pr.precisions.x1))
  }

  /** The invariant of decimal reserves, the second priced in the first. */
  function Invariant(c: Curve, w: World, env: Env, xs: Duo<Dec>): Option<Dec> {
    c.calcD(Duo(xs.x0, Mul(xs.x1, w.config.state.price.priceScale)), c.ampGammaAt(w.config.state, env.time))
  }

  lemma DecsSum(pr: Pair, w: World, dep: Duo<nat>)
    ensures
      var before, added := Decs(pr, Reserves(pr, w)), Decs(pr, dep);
      DecsAfter(pr, w, dep) == Duo(before.x0 + added.x0, before.x1 + added.x1)
  {
    ToDecAdd(Reserves(pr, w).x0, dep.x0, pr.precisions.x0);
    ToDecAdd(Reserves(pr, w).x1, dep.x1, pr.precisions.x1);
  }

  /** What the first provider earns: the xcp of the deposits, less the minimum that stays locked. */
  lemma FirstShareIs(c: Curve, pr: Pair, env: Env, w: World, dep: Duo<nat>, share: Dec)
    requires w.ledger.lpSupply == 0
    ensures ShareFor(c, pr, env, w, dep) == Some(share) <==>
      && share > 0
      && var d := Invariant(c, w, env, DecsAfter(pr, w, dep));
         && d.Some? && c.getXcp(d.value, w.config.state.price.priceScale) == Some(share + ToDec(c.minLiquidity, 6))
  {
    hide Unit, Mul;
    DecsSum(pr, w, dep);
  }

  /** What a later provider earns: what the supply times the growth of the invariant exceeds the supply by, less the fee
      on the deposit. */
  lemma LaterShareIs(c: Curve, pr: Pair, env: Env, w: World, dep: Duo<nat>, share: Dec)
    requires w.ledger.lpSupply > 0
    ensures ShareFor(c, pr, env, w, dep) == Some(share) <==>
      var scale, total := w.config.state.price.priceScale, ToDec(w.ledger.lpSupply, 6);
      var old', new' := Invariant(c, w, env, Decs(pr, Reserves(pr, w))), Invariant(c, w, env, DecsAfter(pr, w, dep));
      var added, after := Decs(pr, dep), DecsAfter(pr, w, dep);
      var fee := c.provideFee(Duo(added.x0, Mul(added.x1, scale)), Duo(after.x0, Mul(after.x1, scale)),
                              w.config.params);
      && old'.Some? && new'.Some? && old'.value > 0 && fee <= ONE
      && share == Mul(SatSub(Div(Mul(total, new'.value), old'.value), total), ONE - fee)
  {
    hide Unit, Mul, Div;
    DecsSum(pr, w, dep);
    assert ToDec(w.ledger.lpSupply, 6) > 0;
  }

  // ----- Provide -----

  /** How far each deposit is from the part of the new reserve that the share is of the new supply. */
  function Deviations(pr: Pair, w: World, dep: Duo<nat>, share: Dec): Duo<Dec>
    requires share > 0 && w.config.state.price.priceScale > 0
  {
    var scale, total := w.config.state.price.priceScale, ToDec(w.ledger.lpSupply, 6);
    var part := FloorDiv(share * ONE, total + share);
    var after := DecsAfter(pr, w, dep);
    Duo(Diff(Decs(pr, dep).x0, Mul(after.x0, part)),
        Diff(Decs(pr, dep).x1, Div(Mul(Mul(after.x1, scale), part), scale)))
  }

  /** The state a provide starts from: the first one sets both profits to one. */
  function StartState(w: World): PoolState {
    if w.ledger.lpSupply > 0 then w.config.state
    else w.config.state.(price := w.config.state.price.(xcpProfit := ONE, xcpProfitReal := ONE))
  }

  /** The deposit is out of balance in both assets. */
  predicate Unbalanced(c: Curve, pr: Pair, w: World, dep: Duo<nat>, share: Dec)
    requires share > 0 && w.config.state.price.priceScale > 0
  {
    var d := Deviations(pr, w, dep, share);
    d.x0 >= c.minTradeSize && d.x1 >= c.minTradeSize
  }

  /** The state that the curve gives an unbalanced deposit: at the supply with the share in it, from the first deviation
      over the second. The slippage guard comes first. */
  function ShiftedState(c: Curve, pr: Pair, env: Env, w: World, dep: Duo<nat>, share: Dec, tolerance: Option<Dec>)
    : Option<PoolState>
    requires share > 0 && w.config.state.price.priceScale > 0
  {
    var scale, d, after := w.config.state.price.priceScale, Deviations(pr, w, dep, share), DecsAfter(pr, w, dep);
    if !c.slippageCheck(Decs(pr, dep), share, StartState(w).price, tolerance) || d.x1 == 0 then None
    else c.updatePrice(StartState(w), w.config.params, env.time, ToDec(w.ledger.lpSupply, 6) + share,
                       Duo(after.x0, Mul(after.x1, scale)), FloorDiv(d.x0 * ONE, d.x1))
  }

  lemma RepricedIs(c: Curve, pr: Pair, env: Env, w: World, dep: Duo<nat>, share: Dec, tolerance: Option<Dec>)
    requires share > 0
    ensures
      var scale, total := w.config.state.price.priceScale, ToDec(w.ledger.lpSupply, LP_TOKEN_PRECISION);
      var before, depDec := Decs(pr, Reserves(pr, w)), Decs(pr, dep);
      var newXp := Scaled(Duo(before.x0 + depDec.x0, before.x1 + depDec.x1), scale);
      RepricedByProvide(c, AfterFirst(w.config, total), env.time, newXp, depDec, total, share, tolerance) ==
        if scale == 0 then None
        else if !Unbalanced(c, pr, w, dep, share) then Some(w.config.(state := StartState(w)))
        else
          var st := ShiftedState(c, pr, env, w, dep, share, tolerance);
          if st.None? then None else Some(w.config.(state := st.value))
  {
    hide Mul, FloorDiv, Decs, Reserves;
    DecsSum(pr, w, dep);
  }

  /** The configuration after any provide transaction. */
  lemma ProvideMovesPrice(c: Curve, pr: Pair, env: Env, w: World, sender: Addr, assets: seq<Coin>,
                          tolerance: Option<Dec>,
                          receiver: Option<Addr>, w': World)
    requires pr.Valid() && sender != pr.addr
    requires ProvideTx(c, pr, env, w, sender, assets, tolerance, receiver) == Some(w')
    ensures Deposits(pr, assets).Some? && ShareFor(c, pr, env, w, Deposits(pr, assets).value).Some?
    ensures
      var dep, scale := Deposits(pr, assets).value, w.config.state.price.priceScale;
      var share := ShareFor(c, pr, env, w, dep).value;
      && share > 0 && scale > 0
      && if !Unbalanced(c, pr, w, dep, share) then w'.config == w.config.(state := StartState(w)) else
         var st := ShiftedState(c, pr, env, w, dep, share, tolerance);
         st.Some? && w'.config == w.config.(state := st.value)
  {
    hide RunMsgs, Send, Decs, RepricedByProvide, ShareOf, ToUint, Unbalanced, ShiftedState, Total, Bal, Scaled, ToDec;
    ProvideEffect(c, pr, env, w, sender, assets, tolerance, receiver, w');
    var dep := Deposits(pr, assets).value;
    var m := Deposited(pr, w, sender, dep).value;
    DepositMoves(pr, w, sender, dep);
    var share := ShareFor(c, pr, env, w, dep).value;
    SomethingMinted(share);
    assert Duo(Reserves(pr, m).x0 - dep.x0, Reserves(pr, m).x1 - dep.x1) == Reserves(pr, w);
    RepricedIs(c, pr, env, w, dep, share, tolerance);
  }

  lemma SomethingMinted(share: Dec)
    requires ToUint(share, LP_TOKEN_PRECISION) > 0
    ensures share > 0
  {
  }

  /** The handler, once the deposits are in: what it needs. */
  lemma HandlerIff(c: Curve, pr: Pair, env: Env, w: World, m: World, sender: Addr, dep: Duo<nat>,
                   tolerance: Option<Dec>,
                   receiver: Option<Addr>)
    requires m == w.(ledger := m.ledger) && m.ledger.lpSupply == w.ledger.lpSupply
    requires Reserves(pr, m) == Duo(Reserves(pr, w).x0 + dep.x0, Reserves(pr, w).x1 + dep.x1)
    requires ShareFor(c, pr, env, w, dep).Some? ==> ShareFor(c, pr, env, w, dep).value > 0
    ensures ProvideLiquidity(c, pr, env, m, sender, dep, tolerance, receiver).Some? <==>
      && env.registered && (w.ledger.lpSupply == 0 ==> dep.x0 > 0 && dep.x1 > 0)
      && ShareFor(c, pr, env, w, dep).Some? && w.config.state.price.priceScale > 0
      && var share := ShareFor(c, pr, env, w, dep).value;
         Unbalanced(c, pr, w, dep, share) ==> ShiftedState(c, pr, env, w, dep, share, tolerance).Some?
  {
    hide Decs, RepricedByProvide, ShareOf, ToUint, Unbalanced, ShiftedState, Reserves, Unit;
    assert Duo(Reserves(pr, m).x0 - dep.x0, Reserves(pr, m).x1 - dep.x1) == Reserves(pr, w);
    if ShareFor(c, pr, env, w, dep).Some? {
      RepricedIs(c, pr, env, w, dep, ShareFor(c, pr, env, w, dep).value, tolerance);
    }
  }

  lemma ShareZeroIff(c: Curve, pr: Pair, env: Env, w: World, dep: Duo<nat>, tolerance: Option<Dec>, m: World,
                     sender: Addr,
                     receiver: Option<Addr>)
    requires m == w.(ledger := m.ledger) && m.ledger.lpSupply == w.ledger.lpSupply
    requires Reserves(pr, m) == Duo(Reserves(pr, w).x0 + dep.x0, Reserves(pr, w).x1 + dep.x1)
    requires pr.Valid() && ProvideLiquidity(c, pr, env, m, sender, dep, tolerance, receiver).Some?
    ensures ShareFor(c, pr, env, w, dep).Some?
    ensures
      var h := ProvideLiquidity(c, pr, env, m, sender, dep, tolerance, receiver).value;
      Finish(pr, h.world, h.msgs).Some? <==> ToUint(ShareFor(c, pr, env, w, dep).value, 6) > 0
  {
    hide ProvideLiquidity, ShareOf, RunMsgs, ToUint, Mints;
    HandlerMints(c, pr, env, m, sender, dep, tolerance, receiver, w);
    MintsEffect(pr, m.ledger, Locked(c, w.ledger.lpSupply), UnwrapOr(receiver, sender),
                Minted(c, pr, env, w, dep).value);
  }

  lemma DepositedIff(pr: Pair, w: World, sender: Addr, dep: Duo<nat>)
    requires pr.Valid() && sender != pr.addr
    ensures Deposited(pr, w, sender, dep).Some? <==>
      dep.x0 <= Bal(w.ledger.bank, sender, pr.denoms.x0) && dep.x1 <= Bal(w.ledger.bank, sender, pr.denoms.x1)
  {
    SendMoves(w.ledger.bank, sender, pr.addr, pr.denoms.x0, dep.x0);
    var m0 := MoveAny(w, sender, pr.addr, pr.denoms.x0, dep.x0);
    if m0.Some? { SendMoves(m0.value.ledger.bank, sender, pr.addr, pr.denoms.x1, dep.x1); }
  }

  /** Exactly which provides are accepted: of coins the sender has, by a pair the factory knows, with both assets the
      first time, for a share of at least one LP unit, and past the slippage guard and the price update if out of
      balance. */
  lemma ProvideAcceptedIff(c: Curve, pr: Pair, env: Env, w: World, sender: Addr, assets: seq<Coin>,
                           tolerance: Option<Dec>,
                           receiver: Option<Addr>)
    requires pr.Valid() && sender != pr.addr
    ensures ProvideTx(c, pr, env, w, sender, assets, tolerance, receiver).Some? <==>
      && Deposits(pr, assets).Some? && env.registered && w.config.state.price.priceScale > 0
      && var dep := Deposits(pr, assets).value;
         && dep.x0 <= Bal(w.ledger.bank, sender, pr.denoms.x0) && dep.x1 <= Bal(w.ledger.bank, sender, pr.denoms.x1)
         && (w.ledger.lpSupply == 0 ==> dep.x0 > 0 && dep.x1 > 0)
         && ShareFor(c, pr, env, w, dep).Some? && ToUint(ShareFor(c, pr, env, w, dep).value, 6) > 0
         && var share := ShareFor(c, pr, env, w, dep).value;
            share > 0 && (Unbalanced(c, pr, w, dep, share) ==> ShiftedState(c, pr, env, w, dep, share, tolerance).Some?)
  {
    hide ProvideLiquidity, Deposits, RunMsgs, Send, Bal, ShareFor, ToUint, Unbalanced, ShiftedState, Total, Reserves;
    if Deposits(pr, assets).Some? {
      var dep := Deposits(pr, assets).value;
      DepositedIff(pr, w, sender, dep);
      if Deposited(pr, w, sender, dep).Some? {
        var m := Deposited(pr, w, sender, dep).value;
        DepositMoves(pr, w, sender, dep);
        if ShareFor(c, pr, env, w, dep).Some? && ToUint(ShareFor(c, pr, env, w, dep).value, 6) > 0 {
          SomethingMinted(ShareFor(c, pr, env, w, dep).value);
          HandlerIff(c, pr, env, w, m, sender, dep, tolerance, receiver);
        }
        if ProvideLiquidity(c, pr, env, m, sender, dep, tolerance, receiver).Some? {
          ShareZeroIff(c, pr, env, w, dep, tolerance, m, sender, receiver);
        }
      }
    }
  }

  // ----- Withdraw -----

  /** What `amount` LP units take of each decimal reserve before truncation to tokens: the part that amount - 1 is of
      the supply, rounded down, of the reserve, rounded down. */
  function TakenOut(pr: Pair, w: World, amount: nat): Duo<Dec>
    requires 1 <= amount < w.ledger.lpSupply
  {
    var xs, part := Decs(pr, Reserves(pr, w)), FloorDiv((amount - 1) * ONE, w.ledger.lpSupply);
    Duo(Mul(xs.x0, part), Mul(xs.x1, part))
  }

  lemma TakenIsThere(pr: Pair, w: World, amount: nat)
    requires 1 <= amount < w.ledger.lpSupply
    ensures
      var xs, out := Decs(pr, Reserves(pr, w)), TakenOut(pr, w, amount);
      && out.x0 <= xs.x0 && out.x1 <= xs.x1
      && ToUint(out.x0, pr.precisions.x0) <= Reserves(pr, w).x0
      && ToUint(out.x1, pr.precisions.x1) <= Reserves(pr, w).x1
  {
    var supply := w.ledger.lpSupply;
    var xs, part := Decs(pr, Reserves(pr, w)), FloorDiv((amount - 1) * ONE, supply);
    MulMono(amount - 1, supply, ONE);
    CancelLe(part, ONE, supply);
    PartOf(xs.x0, part);
    PartOf(xs.x1, part);
    CancelLe(ToUint(Mul(xs.x0, part), pr.precisions.x0), Reserves(pr, w).x0, Unit(pr.precisions.x0));
    CancelLe(ToUint(Mul(xs.x1, part), pr.precisions.x1), Reserves(pr, w).x1, Unit(pr.precisions.x1));
  }

  lemma PartOf(x: Dec, part: Dec)
    requires part <= ONE
    ensures Mul(x, part) <= x
  {
    MulMono(part, ONE, x);
    CancelLe(Mul(x, part), x, ONE);
  }

  /** The curve's xcp of the reserves that stay. */
  function XcpLeft(c: Curve, pr: Pair, env: Env, w: World, amount: nat): Option<Dec>
    requires 1 <= amount < w.ledger.lpSupply
  {
    TakenIsThere(pr, w, amount);
    var xs, out, scale := Decs(pr, Reserves(pr, w)), TakenOut(pr, w, amount), w.config.state.price.priceScale;
    var d := c.calcD(Duo(xs.x0 - out.x0, Mul(xs.x1 - out.x1, scale)), c.ampGammaAt(w.config.state, env.time));
    if d.None? then None else c.getXcp(d.value, scale)
  }

  lemma RefundIsTaken(pr: Pair, w: World, amount: nat)
    requires 1 <= amount < w.ledger.lpSupply
    ensures Refund(pr, Reserves(pr, w), amount, w.ledger.lpSupply) ==
      Duo(ToUint(TakenOut(pr, w, amount).x0, pr.precisions.x0), ToUint(TakenOut(pr, w, amount).x1, pr.precisions.x1))
  {
    hide ToUint, Decs;
  }

  /** The configuration after any withdraw: the real profit is the xcp that is left, per LP unit that is left, in
      decimals; nothing else changes. */
  lemma WithdrawMovesPrice(c: Curve, pr: Pair, env: Env, w: World, sender: Addr, funds: seq<Coin>, assets: seq<Coin>,
                           w': World)
    requires pr.Valid() && sender != pr.addr
    requires WithdrawTx(c, pr, env, w, sender, funds, assets) == Some(w')
    ensures |funds| == 1 && 1 <= funds[0].amount < w.ledger.lpSupply && XcpLeft(c, pr, env, w, funds[0].amount).Some?
    ensures w'.ledger.lpSupply > 0 && ToDec(w'.ledger.lpSupply, 6) > 0
    ensures
      var profit := FloorDiv(XcpLeft(c, pr, env, w, funds[0].amount).value * ONE, ToDec(w'.ledger.lpSupply, 6));
      w'.config == w.config.(state := w.config.state.(price := w.config.state.price.(xcpProfitReal := profit)))
  {
    hide RunMsgs, Send, Decs, Bal, Total, ToDec, ToUint, Mul;
    var amount := funds[0].amount;
    WithdrawEffect(c, pr, env, w, sender, funds, assets, w');
    SendMoves(w.ledger.bank, sender, pr.addr, pr.lpDenom, amount);
    var m := Move(w, sender, pr.addr, pr.lpDenom, amount).value;
    assert Reserves(pr, m) == Reserves(pr, w);
  }

  lemma HandlerWithdrawsIff(c: Curve, pr: Pair, env: Env, w: World, m: World, sender: Addr, amount: nat,
                            assets: seq<Coin>)
    requires m == w.(ledger := m.ledger) && m.ledger.lpSupply == w.ledger.lpSupply && Reserves(pr, m) == Reserves(pr, w)
    ensures WithdrawLiquidity(c, pr, env, m, sender, amount, assets).Some? <==>
      assets == [] && 1 <= amount < w.ledger.lpSupply && XcpLeft(c, pr, env, w, amount).Some?
    ensures WithdrawLiquidity(c, pr, env, m, sender, amount, assets).Some? ==>
      var refund := Refund(pr, Reserves(pr, w), amount, w.ledger.lpSupply);
      && refund.x0 <= Reserves(pr, w).x0 && refund.x1 <= Reserves(pr, w).x1
      && WithdrawLiquidity(c, pr, env, m, sender, amount, assets).value.msgs ==
           [Pay(sender, Coin(pr.denoms.x0, refund.x0)), Pay(sender, Coin(pr.denoms.x1, refund.x1)),
            Burn(pr.addr, Coin(pr.lpDenom, amount))]
  {
    hide Decs, Reserves, ToUint, Mul, ToDec;
    if 1 <= amount < w.ledger.lpSupply {
      TakenIsThere(pr, w, amount);
      RefundIsTaken(pr, w, amount);
    }
  }

  lemma RefundsRunIff(pr: Pair, g: Ledger, sender: Addr, refund: Duo<nat>, amount: nat)
    requires pr.Valid() && 0 < amount <= g.lpSupply && amount <= Bal(g.bank, pr.addr, pr.lpDenom)
    requires refund.x0 <= Bal(g.bank, pr.addr, pr.denoms.x0) && refund.x1 <= Bal(g.bank, pr.addr, pr.denoms.x1)
    ensures
      var ms := [Pay(sender, Coin(pr.denoms.x0, refund.x0)), Pay(sender, Coin(pr.denoms.x1, refund.x1)),
                 Burn(pr.addr, Coin(pr.lpDenom, amount))];
      RunMsgs(pr.addr, g, ms).Some? <==> refund.x0 > 0 && refund.x1 > 0
  {
    var p, q, b := Pay(sender, Coin(pr.denoms.x0, refund.x0)), Pay(sender, Coin(pr.denoms.x1, refund.x1)),
                   Burn(pr.addr, Coin(pr.lpDenom, amount));
    assert [p, q, b][1..] == [q, b] && [q, b][1..] == [b] && [b][1..] == [];
    SendMoves(g.bank, pr.addr, sender, pr.denoms.x0, refund.x0);
    if refund.x0 > 0 {
      var g1 := RunMsg(pr.addr, g, p).value;
      SendMoves(g1.bank, pr.addr, sender, pr.denoms.x1, refund.x1);
      if refund.x1 > 0 {
        var g2 := RunMsg(pr.addr, g1, q).value;
        var g3 := RunMsg(pr.addr, g2, b);
        assert g3.Some? && RunMsgs(pr.addr, g3.value, []) == g3;
        assert RunMsgs(pr.addr, g2, [b]) == g3 && RunMsgs(pr.addr, g1, [q, b]) == g3;
      }
    }
  }

  /** Exactly which withdraws are accepted: of one coin, the LP coin, that the sender has, naming no assets, leaving
      some LP units, refunding some of both assets, and with an xcp for what stays. */
  lemma WithdrawAcceptedIff(c: Curve, pr: Pair, env: Env, w: World, sender: Addr, funds: seq<Coin>, assets: seq<Coin>)
    requires pr.Valid() && sender != pr.addr
    ensures WithdrawTx(c, pr, env, w, sender, funds, assets).Some? <==>
      && |funds| == 1 && funds[0].denom == pr.lpDenom && assets == []
      && 1 <= funds[0].amount < w.ledger.lpSupply && funds[0].amount <= Bal(w.ledger.bank, sender, pr.lpDenom)
      && XcpLeft(c, pr, env, w, funds[0].amount).Some?
      && ToUint(TakenOut(pr, w, funds[0].amount).x0, pr.precisions.x0) > 0
      && ToUint(TakenOut(pr, w, funds[0].amount).x1, pr.precisions.x1) > 0
  {
    hide WithdrawLiquidity, RunMsgs, Decs, ToUint, TakenOut, XcpLeft, Refund, Mul;
    if |funds| == 1 && funds[0].denom == pr.lpDenom {
      var amount := funds[0].amount;
      SendMoves(w.ledger.bank, sender, pr.addr, pr.lpDenom, amount);
      if 0 < amount <= Bal(w.ledger.bank, sender, pr.lpDenom) {
        var m := Move(w, sender, pr.addr, pr.lpDenom, amount).value;
        assert Reserves(pr, m) == Reserves(pr, w);
        HandlerWithdrawsIff(c, pr, env, w, m, sender, amount, assets);
        if WithdrawLiquidity(c, pr, env, m, sender, amount, assets).Some? {
          RefundIsTaken(pr, w, amount);
          RefundsRunIff(pr, m.ledger, sender, Refund(pr, Reserves(pr, w), amount, w.ledger.lpSupply), amount);
          HandlerKeepsLedger(c, pr, env, m, sender, amount, assets);
        }
      }
    }
  }

  lemma HandlerKeepsLedger(c: Curve, pr: Pair, env: Env, m: World, sender: Addr, amount: nat, assets: seq<Coin>)
    requires WithdrawLiquidity(c, pr, env, m, sender, amount, assets).Some?
    ensures WithdrawLiquidity(c, pr, env, m, sender, amount, assets).value.world.ledger == m.ledger
  {
  }
}
