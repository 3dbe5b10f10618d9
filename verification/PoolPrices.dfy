/** Exactly which swaps, provides and withdraws are accepted, and the price state that each leaves behind. */
module PoolPrices {
  import opened Outcome
  import opened FixedPoint
  import opened Bank
  import opened PoolTypes
  import opened PoolSpec
  import opened PoolMessages
  import opened PoolSwaps
  import opened PoolTrades
  import opened PoolLiquidity
  import opened PoolFeed

  // ----- Swaps -----

  /** What a trade is, from balances and the action alone: the curve is asked with the reserves in decimals, and with
      the factory's fee rate only when there is an address for the fee; an exact output is first priced by the curve.
      */
  lemma TradeAsksTheCurve(c: Curve, pr: Pair, w: World, s: Step, t: Trade)
    requires IsSwap(s.action) && TradeOf(c, pr, w, s) == Some(t)
    ensures
      var xs := Duo(Bal(w.ledger.bank, pr.addr, pr.denoms.x0) * Unit(pr.precisions.x0),
                    Bal(w.ledger.bank, pr.addr, pr.denoms.x1) * Unit(pr.precisions.x1));
      var ask, rate := 1 - t.side, if s.env.fee.feeAddress.Some? then s.env.fee.makerFeeRate else 0;
      && c.computeSwap(xs, t.offer * Unit(pr.precisions.At(t.side)), ask, w.config, s.env.time, rate) == Some(t.result)
      && pr.denoms.At(t.side) == (if s.action.SwapOut? then s.action.inDenom else s.action.offer.denom)
      && match s.action
         case SwapOut(_, _, _, out) =>
           var need := c.computeOffer(xs, out.amount * Unit(pr.precisions.At(ask)), ask, w.config, s.env.time);
           need.Some? && t.offer == FloorDiv(need.value.0, Unit(pr.precisions.At(t.side)))
         case _ => t.offer == s.action.offer.amount
  {
  }

  /** Both flows of the trade, fees included, are large enough to move the price. */
  predicate MovesPrice(c: Curve, pr: Pair, t: Trade) {
    && t.result.dy + t.result.makerFee + t.result.shareFee >= c.minTradeSize
    && ToDec(t.offer, pr.precisions.At(t.side)) >= c.minTradeSize
  }

  /** The curve's reserves after the trade, the second priced in the first. */
  function PricedReserves(pr: Pair, w: World, t: Trade): Duo<Dec>
    requires t.result.dy + t.result.makerFee <= Decs(pr, Reserves(pr, w)).At(1 - t.side)
  {
    var xs, scale := Decs(pr, Reserves(pr, w)), w.config.state.price.priceScale;
    var into, out := ToDec(t.offer, pr.precisions.At(t.side)), t.result.dy + t.result.makerFee;
    if t.side == 0 then Duo(xs.x0 + into, Mul(xs.x1 - out, scale)) else Duo(xs.x0 - out, Mul(xs.x1 + into, scale))
  }

  /** The state the curve gives a trade that moves the price: from its last price, at the supply in LP decimals. */
  function StateAfter(c: Curve, pr: Pair, w: World, s: Step, t: Trade): Option<PoolState>
    requires t.result.dy + t.result.makerFee <= Decs(pr, Reserves(pr, w)).At(1 - t.side)
  {
    var price := c.tradePrice(t.result, ToDec(t.offer, pr.precisions.At(t.side)), t.side);
    if price.None? then None
    else c.updatePrice(w.config.state, w.config.params, s.env.time, ToDec(w.ledger.lpSupply, 6),
                       PricedReserves(pr, w, t),
                       price.value)
  }

  lemma SettledConfig(c: Curve, pr: Pair, w: World, s: Step, m: World, t: Trade, receiver: Addr, f: World)
    requires m.config == w.config && m.ledger.lpSupply == w.ledger.lpSupply
    requires Settled(c, pr, s.env, m, Reserves(pr, w), t.side, t.offer, receiver, f)
    requires t.result.dy + t.result.makerFee <= Decs(pr, Reserves(pr, w)).At(1 - t.side)
    requires Some(t.result) == c.computeSwap(Decs(pr, Reserves(pr, w)), ToDec(t.offer, pr.precisions.At(t.side)),
                                             Other(t.side), m.config, s.env.time, s.env.fee.MakerShare())
    ensures MovesPrice(c, pr, t) ==> StateAfter(c, pr, w, s, t).Some?
    ensures f.config == if MovesPrice(c, pr, t) then w.config.(state := StateAfter(c, pr, w, s, t).value) else w.config
  {
    hide Accumulate, Payouts, Committed, Reserves, Decs, ToDec, ToUint, RunMsgs, FloorDiv;
  }

  /** The configuration after any swap transaction: a trade that moves the price leaves the state that the curve gives
      it, any other leaves everything as it was. */
  lemma SwapMovesPrice(c: Curve, pr: Pair, w: World, s: Step, w': World)
    requires pr.Valid() && Outsider(pr, s) && KnowsId(pr, w) && w.swapParams.None?
    requires IsSwap(s.action) && Attempt(c, pr, w, s) == Some(w')
    ensures TradeOf(c, pr, w, s).Some?
    ensures
      var t := TradeOf(c, pr, w, s).value;
      && t.result.dy + t.result.makerFee <= Decs(pr, Reserves(pr, w)).At(1 - t.side)
      && (if MovesPrice(c, pr, t)
          then StateAfter(c, pr, w, s, t).Some? && w'.config == w.config.(state := StateAfter(c, pr, w, s, t).value)
          else w'.config == w.config)
  {
    hide Attempt, RunMsgs, Settle, Decs, ToDec, FeeCharged, MovesPrice, StateAfter;
    SwapEffect(c, pr, w, s, w');
    var m, f, t := SwapFrame(c, pr, w, s, w');
    SettledConfig(c, pr, w, s, m, t, Payee(s.action), f);
  }

  /** The sender can pay, and pays something. */
  predicate Affordable(w: World, a: Action)
    requires IsSwap(a)
  {
    var d, n := if a.SwapOut? then a.inDenom else a.offer.denom, if a.SwapOut? then a.maxIn else a.offer.amount;
    0 < n <= Bal(w.ledger.bank, a.sender, d)
  }

  /** The limits of each way to swap. A direct swap is held to the price its minimum output implies, without any spread;
      a dispatched one to its sender's own belief and spread; an exact output to the maximum offered. */
  predicate WithinLimits(c: Curve, pr: Pair, w: World, s: Step, t: Trade)
    requires IsSwap(s.action)
  {
    var xs, offerDec := Decs(pr, Reserves(pr, w)), ToDec(t.offer, pr.precisions.At(t.side));
    var returned := ToUint(t.result.dy, pr.precisions.At(1 - t.side));
    var spread := ToUint(t.result.spreadFee, pr.precisions.At(1 - t.side));
    match s.action
    case SwapIn(_, offer, minOut) =>
      && minOut > 0 && c.swapCheck(xs, offerDec)
      && c.spreadCheck(Some(FloorDiv(offer.amount * ONE, minOut)), Some(0), offer.amount, returned, spread)
    case SwapViaPair(_, offer, belief, maxSpread, _) =>
      && w.poolId == Some(pr.dexPoolId) && c.swapCheck(xs, offerDec)
      && c.spreadCheck(belief, maxSpread, offer.amount, returned, spread)
    case SwapOut(_, _, maxIn, out) =>
      && out.denom == pr.denoms.At(1 - t.side) && out.amount > 0 && t.offer <= maxIn
      && Reserves(pr, w).At(1 - t.side) > 0
  }

  /** The pool can carry the trade out: it has what the curve wants to give, something reaches the payee, the price
      can be updated if the trade moves it, and a waiting precommit can be entered into the feed. */
  predicate Workable(c: Curve, pr: Pair, w: World, s: Step, t: Trade) {
    && t.result.dy + t.result.makerFee <= Decs(pr, Reserves(pr, w)).At(1 - t.side)
    && ToUint(t.result.dy, pr.precisions.At(1 - t.side)) > 0
    && (MovesPrice(c, pr, t) ==> StateAfter(c, pr, w, s, t).Some?)
    && FeedAccepts(c, w)
  }

  predicate FeedAccepts(c: Curve, w: World) {
    w.precommit.Some? ==>
      && w.precommit.value.quote > 0
      && (w.observations != [] && w.observations[|w.observations| - 1].ts < w.precommit.value.ts ==>
           c.movingAverage(w.observations, FloorDiv(w.precommit.value.base * ONE, w.precommit.value.quote)).Some?)
  }

  lemma AccumulatesIff(c: Curve, w: World, now: nat)
    ensures Accumulate(c, w.precommit, w.observations, now).Some? <==> FeedAccepts(c, w)
  {
    hide FloorDiv;
  }

  /** The answer of the curve to a trade of `offer`. */
  function Answer(c: Curve, pr: Pair, w: World, env: Env, os: Side, offer: nat): Option<SwapResult> {
    c.computeSwap(Decs(pr, Reserves(pr, w)), ToDec(offer, pr.precisions.At(os)), Other(os), w.config, env.time,
                  env.fee.MakerShare())
  }

  lemma SettlesIff(c: Curve, pr: Pair, w: World, s: Step, m: World, os: Side, offer: nat, receiver: Addr)
    requires m == w.(ledger := m.ledger, swapParams := m.swapParams) && m.ledger.lpSupply == w.ledger.lpSupply
    ensures
      var settled := Settle(c, pr, s.env, m, Reserves(pr, w), os, offer, receiver);
      var answer := Answer(c, pr, w, s.env, os, offer);
      && (settled.Some? <==>
           && answer.Some? && FeedAccepts(c, w)
           && answer.value.dy + answer.value.makerFee <= Decs(pr, Reserves(pr, w)).At(Other(os))
           && var t := Trade(os, offer, answer.value);
              MovesPrice(c, pr, t) ==> StateAfter(c, pr, w, s, t).Some?)
      && (settled.Some? ==>
           && settled.value.receipt.returned == ToUint(answer.value.dy, pr.precisions.At(Other(os)))
           && settled.value.receipt.spread == ToUint(answer.value.spreadFee, pr.precisions.At(Other(os)))
           && settled.value.receipt.returned + settled.value.receipt.makerFee <= Reserves(pr, w).At(Other(os))
           && settled.value.world.ledger == m.ledger)
  {
    hide Accumulate, Payouts, Committed, Reserves, Decs, ToDec, ToUint, FloorDiv, FeeCharged;
    AccumulatesIff(c, w, s.env.time);
    var answer := Answer(c, pr, w, s.env, os, offer);
    if answer.Some? && answer.value.dy + answer.value.makerFee <= Decs(pr, Reserves(pr, w)).At(Other(os)) {
      SettlePayoutFits(pr, w, s.env, answer.value, os);
    }
  }

  lemma SettlePayoutFits(pr: Pair, w: World, env: Env, r: SwapResult, os: Side)
    requires r.dy + r.makerFee <= Decs(pr, Reserves(pr, w)).At(Other(os))
    ensures
      var ai := Other(os);
      ToUint(r.dy, pr.precisions.At(ai)) + FeeCharged(pr, env.fee, r, ai) <= Reserves(pr, w).At(ai)
  {
    PayoutFits(pr, env.fee, r, Other(os), Reserves(pr, w).At(Other(os)));
  }

  /** A settlement's payments go through exactly when something is returned. */
  lemma PaymentsIff(c: Curve, pr: Pair, w: World, s: Step, m: World, os: Side, offer: nat, receiver: Addr)
    requires m == w.(ledger := m.ledger, swapParams := m.swapParams) && m.ledger.lpSupply == w.ledger.lpSupply
    requires Bal(m.ledger.bank, pr.addr, pr.denoms.At(Other(os))) == Reserves(pr, w).At(Other(os))
    ensures
      var settled := Settle(c, pr, s.env, m, Reserves(pr, w), os, offer, receiver);
      FinishSwap(pr, settled).Some? <==> settled.Some? && settled.value.receipt.returned > 0
  {
    hide Reserves, Accumulate, Committed, Decs, ToDec, ToUint, Repriced, AfterTrade, RunMsgs;
    var settled := Settle(c, pr, s.env, m, Reserves(pr, w), os, offer, receiver);
    SettlesIff(c, pr, w, s, m, os, offer, receiver);
    if settled.Some? {
      PayoutsRunIff(pr, s.env.fee, Other(os), settled.value.receipt.returned, settled.value.receipt.makerFee, receiver,
                    m.ledger);
    }
  }

  lemma PayoutsRunIff(pr: Pair, fee: FeeInfo, ai: Side, returned: nat, charged: nat, receiver: Addr, g: Ledger)
    requires returned + charged <= Bal(g.bank, pr.addr, pr.denoms.At(ai))
    ensures RunMsgs(pr.addr, g, Payouts(pr, fee, ai, returned, charged, receiver)).Some? <==> returned > 0
  {
    var ms := Payouts(pr, fee, ai, returned, charged, receiver);
    if returned > 0 {
      var g1 := RunMsg(pr.addr, g, ms[0]).value;
      SendMoves(g.bank, pr.addr, receiver, pr.denoms.At(ai), returned);
      if |ms| == 2 {
        assert ms[1..] == [ms[1]] && ms[1..][1..] == [];
        var g2 := RunMsg(pr.addr, g1, ms[1]);
        assert g2.Some? && RunMsgs(pr.addr, g2.value, []) == g2;
      } else {
        assert ms[1..] == [];
      }
    }
  }

  /** A swap of an offer that has just arrived, against the reserves before. */
  lemma InternalSwapIs(c: Curve, pr: Pair, w: World, env: Env, m: World, sender: Addr, denom: Denom, x: nat,
                       belief: Option<Dec>, maxSpread: Option<Dec>, to: Option<Addr>)
    requires pr.SideOf(denom).Some? && Reserves(pr, m).At(pr.SideOf(denom).value) >= x
    requires
      var os, held := pr.SideOf(denom).value, Reserves(pr, m);
      held.With(os, held.At(os) - x) == Reserves(pr, w)
    ensures
      var os := pr.SideOf(denom).value;
      var settled := Settle(c, pr, env, m, Reserves(pr, w), os, x, UnwrapOr(to, sender));
      InternalSwap(c, pr, env, m, sender, denom, x, belief, maxSpread, to) ==
        if c.swapCheck(Decs(pr, Reserves(pr, w)), ToDec(x, pr.precisions.At(os))) && settled.Some?
           && c.spreadCheck(belief, maxSpread, x, settled.value.receipt.returned, settled.value.receipt.spread)
        then settled else None
  {
    hide Settle, Decs, ToDec, Reserves;
  }

  lemma ForeignDenom(c: Curve, pr: Pair, env: Env, m: World, sender: Addr, denom: Denom, x: nat, minOut: nat)
    requires pr.SideOf(denom).None?
    ensures SudoSwapIn(c, pr, env, m, sender, denom, x, minOut).None?
  {
  }

  lemma SwapInAcceptedIff(c: Curve, pr: Pair, w: World, s: Step)
    requires pr.Valid() && Outsider(pr, s) && w.swapParams.None? && s.action.SwapIn?
    ensures Attempt(c, pr, w, s).Some? <==>
      && Affordable(w, s.action) && TradeOf(c, pr, w, s).Some?
      && WithinLimits(c, pr, w, s, TradeOf(c, pr, w, s).value) && Workable(c, pr, w, s, TradeOf(c, pr, w, s).value)
  {
    hide Settle, RunMsgs, InternalSwap, Decs, ToDec, ToUint, FloorDiv, MovesPrice, StateAfter, FeedAccepts;
    var SwapIn(sender, coin, minOut) := s.action;
    var d, x := coin.denom, coin.amount;
    SendMoves(w.ledger.bank, sender, pr.addr, d, x);
    var side := pr.SideOf(d);
    if Affordable(w, s.action) {
      var m := Move(w, sender, pr.addr, d, x).value;
      if side.None? {
        ForeignDenom(c, pr, s.env, m, sender, d, x, minOut);
      } else {
        UndoDeposit(pr, w, sender, d, x);
        SettlesIff(c, pr, w, s, m, side.value, x, sender);
        PaymentsIff(c, pr, w, s, m, side.value, x, sender);
        if minOut > 0 {
          InternalSwapIs(c, pr, w, s.env, m, sender, d, x, Some(FloorDiv(x * ONE, minOut)), Some(0), None);
        }
      }
    }
  }

  /** The state in which a dispatched swap is settled: the offer has arrived and has been sent by the pair to itself. */
  function Dispatched(pr: Pair, w: World, sender: Addr, d: Denom, x: nat, params: SwapParams): Option<World> {
    var m := Move(w, sender, pr.addr, d, x);
    if m.None? then None else Move(m.value.(swapParams := Some(params)), pr.addr, pr.addr, d, x)
  }

  lemma DispatchArrives(pr: Pair, w: World, sender: Addr, d: Denom, x: nat, params: SwapParams)
    requires pr.Valid() && sender != pr.addr && pr.SideOf(d).Some? && 0 < x <= Bal(w.ledger.bank, sender, d)
    ensures Move(w, sender, pr.addr, d, x).Some? && Dispatched(pr, w, sender, d, x, params).Some?
    ensures
      var n, os := Dispatched(pr, w, sender, d, x, params).value.(swapParams := None), pr.SideOf(d).value;
      && n == w.(ledger := n.ledger, swapParams := None) && n.ledger.lpSupply == w.ledger.lpSupply
      && Reserves(pr, n).At(os) >= x && Reserves(pr, n).With(os, Reserves(pr, n).At(os) - x) == Reserves(pr, w)
      && Reserves(pr, n).At(Other(os)) == Reserves(pr, w).At(Other(os))
  {
    var m := Move(w, sender, pr.addr, d, x).value;
    SendMoves(w.ledger.bank, sender, pr.addr, d, x);
    UndoDeposit(pr, w, sender, d, x);
    SendMoves(m.ledger.bank, pr.addr, pr.addr, d, x);
    var n := Dispatched(pr, w, sender, d, x, params).value.(swapParams := None);
    assert Reserves(pr, n) == Reserves(pr, m);
  }

  lemma PairSwapIs(c: Curve, pr: Pair, env: Env, w: World, sender: Addr, d: Denom, x: nat, belief: Option<Dec>,
                   maxSpread: Option<Dec>, to: Option<Addr>)
    requires KnowsId(pr, w)
    ensures
      var n := Dispatched(pr, w, sender, d, x, SwapParams(belief, maxSpread, sender, to));
      PairSwap(c, pr, env, w, sender, d, x, belief, maxSpread, to) ==
        if n.None? || pr.SideOf(d).None? || w.poolId.None? then None
        else FinishSwap(pr, InternalSwap(c, pr, env, n.value.(swapParams := None), sender, d, x, belief, maxSpread, to))
  {
    hide InternalSwap, RunMsgs, Send;
  }

  lemma SwapViaPairAcceptedIff(c: Curve, pr: Pair, w: World, s: Step)
    requires pr.Valid() && Outsider(pr, s) && KnowsId(pr, w) && w.swapParams.None? && s.action.SwapViaPair?
    ensures Attempt(c, pr, w, s).Some? <==>
      && Affordable(w, s.action) && TradeOf(c, pr, w, s).Some?
      && WithinLimits(c, pr, w, s, TradeOf(c, pr, w, s).value) && Workable(c, pr, w, s, TradeOf(c, pr, w, s).value)
  {
    hide Settle, RunMsgs, InternalSwap, PairSwap, Decs, ToDec, ToUint, MovesPrice, StateAfter, FeedAccepts, Dispatched;
    var SwapViaPair(sender, coin, belief, maxSpread, to) := s.action;
    var d, x, params := coin.denom, coin.amount, SwapParams(belief, maxSpread, sender, to);
    PairSwapIs(c, pr, s.env, w, sender, d, x, belief, maxSpread, to);
    var side := pr.SideOf(d);
    if !Affordable(w, s.action) {
      NotDispatched(pr, w, sender, d, x, params);
    } else if side.Some? {
      DispatchArrives(pr, w, sender, d, x, params);
      var n := Dispatched(pr, w, sender, d, x, params).value.(swapParams := None);
      InternalSwapIs(c, pr, w, s.env, n, sender, d, x, belief, maxSpread, to);
      SettlesIff(c, pr, w, s, n, side.value, x, UnwrapOr(to, sender));
      PaymentsIff(c, pr, w, s, n, side.value, x, UnwrapOr(to, sender));
    }
  }

  lemma NotDispatched(pr: Pair, w: World, sender: Addr, d: Denom, x: nat, params: SwapParams)
    requires !(0 < x <= Bal(w.ledger.bank, sender, d))
    ensures Dispatched(pr, w, sender, d, x, params).None?
  {
  }

  /** An exact-output swap of which the maximum has just arrived, against the reserves before. */
  lemma SwapExactOutIs(c: Curve, pr: Pair, w: World, env: Env, m: World, sender: Addr, inDenom: Denom, maxIn: nat,
                       outDenom: Denom, out: nat)
    requires pr.Valid() && maxIn > 0 && m.config == w.config
    requires pr.SideOf(inDenom).Some? ==>
      var os, held := pr.SideOf(inDenom).value, Reserves(pr, m);
      && held.At(os) >= maxIn && held.With(os, held.At(os) - maxIn) == Reserves(pr, w)
    ensures SwapExactOut(c, pr, env, m, sender, inDenom, maxIn, outDenom, out) ==
      if pr.SideOf(inDenom).None? then None else
      var os := pr.SideOf(inDenom).value;
      var charged := ChargedFor(c, pr, env, w, os, out);
      if outDenom == pr.denoms.At(Other(os)) && out > 0 && Reserves(pr, w).At(Other(os)) > 0
         && charged.Some? && charged.value <= maxIn
      then Settle(c, pr, env, m, Reserves(pr, w), os, charged.value, sender) else None
  {
    hide Settle, Decs, ToDec, ToUint, Reserves;
  }

  lemma SwapOutAcceptedIff(c: Curve, pr: Pair, w: World, s: Step)
    requires pr.Valid() && Outsider(pr, s) && s.action.SwapOut?
    ensures Attempt(c, pr, w, s).Some? <==>
      && Affordable(w, s.action) && TradeOf(c, pr, w, s).Some?
      && WithinLimits(c, pr, w, s, TradeOf(c, pr, w, s).value) && Workable(c, pr, w, s, TradeOf(c, pr, w, s).value)
  {
    hide Settle, RunMsgs, SwapExactOut, ChargedFor, Decs, ToDec, ToUint, MovesPrice, StateAfter, FeedAccepts;
    var SwapOut(sender, inDenom, maxIn, out) := s.action;
    SendMoves(w.ledger.bank, sender, pr.addr, inDenom, maxIn);
    if Affordable(w, s.action) {
      var m := Move(w, sender, pr.addr, inDenom, maxIn).value;
      var side := pr.SideOf(inDenom);
      if side.Some? { UndoDeposit(pr, w, sender, inDenom, maxIn); }
      SwapExactOutIs(c, pr, w, s.env, m, sender, inDenom, maxIn, out.denom, out.amount);
      if side.Some? && ChargedFor(c, pr, s.env, w, side.value, out.amount).Some? {
        var x := ChargedFor(c, pr, s.env, w, side.value, out.amount).value;
        SettlesIff(c, pr, w, s, m, side.value, x, sender);
        PaymentsIff(c, pr, w, s, m, side.value, x, sender);
        ReceiptNamesOffer(c, pr, s.env, m, Reserves(pr, w), side.value, x, sender);
        if x <= maxIn && FinishSwap(pr, Settle(c, pr, s.env, m, Reserves(pr, w), side.value, x, sender)).Some? {
          ExcessIsThere(c, pr, s.env, m, Reserves(pr, w), side.value, x, sender, maxIn - x);
        }
      }
    }
  }

  /** What was not charged can always be sent back: the payments did not touch the offered coin. */
  lemma ExcessIsThere(c: Curve, pr: Pair, env: Env, m: World, r: Duo<nat>, os: Side, x: nat, sender: Addr, n: nat)
    requires pr.Valid() && FinishSwap(pr, Settle(c, pr, env, m, r, os, x, sender)).Some? && n <= Reserves(pr, m).At(os)
    ensures
      var f := FinishSwap(pr, Settle(c, pr, env, m, r, os, x, sender)).value;
      MoveAny(f, pr.addr, sender, pr.denoms.At(os), n).Some?
  {
    hide Settle, RunMsgs;
    SettledPayments(c, pr, env, m, r, os, x, sender, pr.lpDenom);
  }

  /** Exactly which swaps are accepted, on each of the three ways in. */
  lemma SwapAcceptedIff(c: Curve, pr: Pair, w: World, s: Step)
    requires pr.Valid() && Outsider(pr, s) && KnowsId(pr, w) && w.swapParams.None? && IsSwap(s.action)
    ensures Attempt(c, pr, w, s).Some? <==>
      && Affordable(w, s.action) && TradeOf(c, pr, w, s).Some?
      && WithinLimits(c, pr, w, s, TradeOf(c, pr, w, s).value) && Workable(c, pr, w, s, TradeOf(c, pr, w, s).value)
  {
    hide Attempt, TradeOf, WithinLimits, Workable;
    match s.action
    case SwapIn(_, _, _) => SwapInAcceptedIff(c, pr, w, s);
    case SwapViaPair(_, _, _, _, _) => SwapViaPairAcceptedIff(c, pr, w, s);
    case SwapOut(_, _, _, _) => SwapOutAcceptedIff(c, pr, w, s);
  }
}
