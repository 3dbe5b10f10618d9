/** The pair contract with its storage and the chain's ledger as mutable state. Each handler works step by step
    as the contract does and is proved to make exactly the change PoolSpec describes. */
module PoolContract {
  import opened Outcome
  import opened FixedPoint
  import opened Bank
  import opened PoolTypes
  import Spec = PoolSpec

  class PairContract {
    const c: Curve
    const pr: Pair
    var bank: Book
    var lpSupply: nat
    var config: Config
    var balances: map<Denom, nat>
    var swapParams: Option<SwapParams>
    var poolId: Option<nat>
    var precommit: Option<Precommit>
    var observations: seq<Observation>

    function State(): World
      reads this
    {
      World(Ledger(bank, lpSupply), config, balances, swapParams, poolId, precommit, observations)
    }

    constructor (c: Curve, pr: Pair, bank: Book, config: Config)
      ensures this.c == c && this.pr == pr
      ensures config.trackBalances ==> State() == World(Ledger(bank, 0), config,
                                                        map[pr.denoms.x0 := 0, pr.denoms.x1 := 0], None, None, None, [])
      ensures !config.trackBalances ==> State() == World(Ledger(bank, 0), config, map[], None, None, None, [])
    {
      this.c, this.pr, this.bank, this.config := c, pr, bank, config;
      lpSupply, swapParams, poolId, precommit, observations := 0, None, None, None, [];
      balances := map[];
      new;
      if config.trackBalances {
        balances := balances[pr.denoms.x0 := 0];
        balances := balances[pr.denoms.x1 := 0];
      }
    }

    method Restore(w: World)
      modifies this
      ensures State() == w
    {
      bank, lpSupply, config, balances := w.ledger.bank, w.ledger.lpSupply, w.config, w.balances;
      swapParams, poolId, precommit, observations := w.swapParams, w.poolId, w.precommit, w.observations;
    }

    method Move(from: Addr, to: Addr, d: Denom, n: nat) returns (ok: bool)
      modifies this`bank
      ensures ok <==> Spec.Move(old(State()), from, to, d, n).Some?
      ensures ok ==> State() == Spec.Move(old(State()), from, to, d, n).value
    {
      if n == 0 || Bal(bank, from, d) < n { return false; }
      bank := Debit(bank, from, d, n);
      bank := Credit(bank, to, d, n);
      return true;
    }

    method MoveAny(from: Addr, to: Addr, d: Denom, n: nat) returns (ok: bool)
      modifies this`bank
      ensures ok <==> Spec.MoveAny(old(State()), from, to, d, n).Some?
      ensures ok ==> State() == Spec.MoveAny(old(State()), from, to, d, n).value
    {
      ok := true;
      if n != 0 { ok := Move(from, to, d, n); }
    }

    method RunMessages(msgs: seq<Msg>) returns (ok: bool)
      modifies this`bank, this`lpSupply
      ensures ok <==> Spec.Finish(pr, old(State()), msgs).Some?
      ensures ok ==> State() == Spec.Finish(pr, old(State()), msgs).value
    {
      var i := 0;
      while i < |msgs|
        invariant 0 <= i <= |msgs|
        decreases |msgs| - i
        invariant RunMsgs(pr.addr, Ledger(bank, lpSupply), msgs[i..]) == RunMsgs(pr.addr, old(State()).ledger, msgs)
      {
        assert msgs[i..][1..] == msgs[i + 1..];
        var m := msgs[i];
        match m {
          case Pay(to, coin) =>
            ok := Move(pr.addr, to, coin.denom, coin.amount);
            if !ok { return; }
          case Mint(to, coin) =>
            if coin.amount == 0 { return false; }
            bank, lpSupply := Credit(bank, to, coin.denom, coin.amount), lpSupply + coin.amount;
          case Burn(from, coin) =>
            if coin.amount == 0 || Bal(bank, from, coin.denom) < coin.amount || lpSupply < coin.amount { return false; }
            bank, lpSupply := Debit(bank, from, coin.denom, coin.amount), lpSupply - coin.amount;
        }
        i := i + 1;
      }
      return true;
    }

    // ----- Observation feed -----

    method AccumulateSwapSizes(now: nat) returns (ok: bool)
      modifies this`observations
      ensures ok <==> Spec.Accumulate(c, precommit, old(observations), now).Some?
      ensures ok ==> observations == Spec.Accumulate(c, precommit, old(observations), now).value
    {
      if precommit.Some? {
        var p := precommit.value;
        if p.quote == 0 { return false; }
        var price := FloorDiv(p.base * ONE, p.quote);
        if |observations| > 0 {
          var last := observations[|observations| - 1];
          // Skip saving an observation that is already there.
          if last.ts < p.ts {
            var sma := c.movingAverage(observations, price);
            if sma.None? { return false; }
            observations := observations + [Observation(p.ts, price, sma.value)];
          }
        } else if p.ts < now {
          observations := observations + [Observation(p.ts, price, price)];
        }
      }
      return true;
    }

    // ----- Swaps -----

    /** Ask the curve for the trade and move both reserves accordingly. */
    method ComputeTrade(env: Env, reserves: Duo<Dec>, offerDec: Dec,
                        oi: Side) returns (r: Option<(SwapResult, Duo<Dec>)>)
      ensures
        var res := c.computeSwap(reserves, offerDec, Other(oi), config, env.time, env.fee.MakerShare());
        && (r.Some? <==> res.Some? && res.value.dy + res.value.makerFee <= reserves.At(Other(oi)))
        && (r.Some? ==> r.value.0 == res.value)
        && (r.Some? ==> r.value.1 == reserves.With(oi, reserves.At(oi) + offerDec)
                                             .With(Other(oi),
                                                   reserves.At(Other(oi)) - (res.value.dy + res.value.makerFee)))
    {
      var xs, ai := reserves, Other(oi);
      var makerFeeShare := 0;
      if env.fee.feeAddress.Some? { makerFeeShare := env.fee.makerFeeRate; }
      var computed := c.computeSwap(xs, offerDec, ai, config, env.time, makerFeeShare);
      if computed.None? { return None; }
      var res := computed.value;
      xs := xs.With(oi, xs.At(oi) + offerDec);
      if xs.At(ai) < res.dy + res.makerFee { return None; }
      xs := xs.With(ai, xs.At(ai) - (res.dy + res.makerFee));
      return Some((res, xs));
    }

    /** The price update both swap entry points make, skipped for very small trades. */
    method Reprice(env: Env, cfg: Config, after: Duo<Dec>, res: SwapResult, offerDec: Dec, oi: Side)
      returns (repriced: Option<Config>)
      ensures repriced == Spec.Repriced(c, cfg, env.time, lpSupply, after, res, offerDec, oi)
    {
      var totalShare := ToDec(lpSupply, LP_TOKEN_PRECISION);
      repriced := Some(cfg);
      if res.dy + res.makerFee + res.shareFee >= c.minTradeSize && offerDec >= c.minTradeSize {
        var last := c.tradePrice(res, offerDec, oi);
        if last.None? { return None; }
        var xs := after.With(1, Mul(after.x1, cfg.state.price.priceScale));
        var st := c.updatePrice(cfg.state, cfg.params, env.time, totalShare, xs, last.value);
        if st.None? { return None; }
        repriced := Some(cfg.(state := st.value));
      }
    }

    /** The messages of a swap: the proceeds, and the maker fee when there is one and an address for it. */
    method PayoutMessages(env: Env, res: SwapResult, ai: Side, returned: nat, receiver: Addr)
      returns (messages: seq<Msg>, makerFee: nat)
      ensures makerFee == Spec.FeeCharged(pr, env.fee, res, ai)
      ensures messages == Spec.Payouts(pr, env.fee, ai, returned, makerFee, receiver)
    {
      messages, makerFee := [Pay(receiver, Coin(pr.denoms.At(ai), returned))], 0;
      if env.fee.feeAddress.Some? {
        makerFee := ToUint(res.makerFee, pr.precisions.At(ai));
        if makerFee != 0 {
          messages := messages + [Pay(env.fee.feeAddress.value, Coin(pr.denoms.At(ai), makerFee))];
        }
      }
    }

    /** The library's save, of whichever kind it is. */
    method SavePrecommit(env: Env, base: nat, quote: nat)
      modifies this`precommit
      ensures precommit == Some(Spec.Noted(c, old(precommit), base, quote, env.time))
    {
      if c.sumsBlock && precommit.Some? && precommit.value.ts == env.time {
        precommit := Some(Precommit(precommit.value.base + base, precommit.value.quote + quote, env.time));
      } else {
        precommit := Some(Precommit(base, quote, env.time));
      }
    }

    /** Move the waiting precommit into the feed, then leave this trade's precommit if it is large enough. */
    method Observe(env: Env, oi: Side, offer: nat, offerDec: Dec, returned: nat, dy: Dec) returns (ok: bool)
      modifies this`observations, this`precommit
      ensures
        var obs := Spec.Accumulate(c, old(precommit), old(observations), env.time);
        && (ok <==> obs.Some?)
        && (ok ==> observations == obs.value)
        && (ok ==> precommit == Spec.Committed(c, old(precommit), env.time, oi, offer, offerDec, returned, dy))
    {
      ok := AccumulateSwapSizes(env.time);
      if !ok { return; }
      if offerDec >= c.minTradeSize && dy >= c.minTradeSize {
        var base, quote := returned, offer;
        if oi == 0 { base, quote := offer, returned; }
        SavePrecommit(env, base, quote);
      }
    }

    /** internal_swap records the new balances from its decimal reserves. */
    method RecordDecimals(ghost prior: Duo<nat>, pools: Duo<Dec>, oi: Side, offer: nat, returned: nat, makerFee: nat)
      requires pools == Decs(pr, prior) && returned + makerFee <= prior.At(Other(oi))
      modifies this`balances
      ensures balances == BalancesAfter(pr, old(balances), config.trackBalances, prior, oi, offer, returned + makerFee)
    {
      hide Unit, ToUint, ToDec;
      var ai, offerDec := Other(oi), ToDec(offer, pr.precisions.At(oi));
      ToDecAdd(prior.At(oi), offer, pr.precisions.At(oi));
      RoundTrip(prior.At(oi) + offer, pr.precisions.At(oi));
      RoundTrip(prior.At(ai), pr.precisions.At(ai));
      if config.trackBalances {
        balances := balances[pr.denoms.At(oi) := ToUint(pools.At(oi) + offerDec, pr.precisions.At(oi))];
        balances := balances[pr.denoms.At(ai) := ToUint(pools.At(ai), pr.precisions.At(ai)) - returned - makerFee];
      }
    }

    /** swap_exact_amount_out records them from its integer reserves. */
    method RecordIntegers(pools: Duo<nat>, oi: Side, offer: nat, returned: nat, makerFee: nat)
      requires returned + makerFee <= pools.At(Other(oi))
      modifies this`balances
      ensures balances == BalancesAfter(pr, old(balances), config.trackBalances, pools, oi, offer, returned + makerFee)
    {
      hide Unit, ToUint, ToDec;
      var ai, offerDec := Other(oi), ToDec(offer, pr.precisions.At(oi));
      RoundTrip(offer, pr.precisions.At(oi));
      if config.trackBalances {
        balances := balances[pr.denoms.At(oi) := pools.At(oi) + ToUint(offerDec, pr.precisions.At(oi))];
        balances := balances[pr.denoms.At(ai) := pools.At(ai) - returned - makerFee];
      }
    }

    method InternalSwap(env: Env, sender: Addr, denom: Denom, offer: nat, belief: Option<Dec>, maxSpread: Option<Dec>,
                        to: Option<Addr>) returns (r: Option<(seq<Msg>, SwapReceipt)>)
      modifies this`config, this`balances, this`precommit, this`observations
      ensures
        var s := Spec.InternalSwap(c, pr, env, old(State()), sender, denom, offer, belief, maxSpread, to);
        && (r.Some? <==> s.Some?)
        && (r.Some? ==> State() == s.value.world && r.value == (s.value.msgs, s.value.receipt))
    {
      hide UnwrapOr, Unit, FloorDiv, Mul, Decs, ToDec, ToUint, Bal, Spec.InternalSwap, Spec.Settle, Spec.Accumulate,
        Spec.Repriced, Spec.Payouts, Spec.FeeCharged, Spec.Committed, BalancesAfter, Duo.At, Duo.With;
      SwapUnfolds(c, pr, env, State(), sender, denom, offer, belief, maxSpread, to);
      var side := pr.SideOf(denom);
      if side.None? { return None; }
      var oi := side.value;
      var ai := Other(oi);
      var offerDec := ToDec(offer, pr.precisions.At(oi));
      ghost var held := Reserves(pr, State());
      DecsOrder(pr, held, oi, offer);
      var pools := Decs(pr, Duo(Bal(bank, pr.addr, pr.denoms.x0), Bal(bank, pr.addr, pr.denoms.x1)));
      // The offer is already in the account.
      if pools.At(oi) < offerDec { return None; }
      DecsLess(pr, held, oi, offer);
      SettleUnfolds(c, pr, env, State(), held.With(oi, held.At(oi) - offer), oi, offer, UnwrapOr(to, sender));
      pools := pools.With(oi, pools.At(oi) - offerDec);
      if !c.swapCheck(pools, offerDec) { return None; }
      var xs := pools;

      var computed := ComputeTrade(env, xs, offerDec, oi);
      if computed.None? { return None; }
      var res := computed.value.0;
      xs := computed.value.1;

      var returned := ToUint(res.dy, pr.precisions.At(ai));
      var spread := ToUint(res.spreadFee, pr.precisions.At(ai));
      if !c.spreadCheck(belief, maxSpread, offer, returned, spread) { return None; }
      var repriced := Reprice(env, config, xs, res, offerDec, oi);
      if repriced.None? { return None; }
      var messages, makerFee := PayoutMessages(env, res, ai, returned, UnwrapOr(to, sender));
      var observed := Observe(env, oi, offer, offerDec, returned, res.dy);
      if !observed { return None; }

      config := repriced.value;
      RecordDecimals(held.With(oi, held.At(oi) - offer), pools, oi, offer, returned, makerFee);
      var commission := ToUint(res.totalFee, pr.precisions.At(ai));
      return Some((messages, SwapReceipt(offer, returned, spread, commission, makerFee)));
    }

    /** The part of swap_exact_amount_out that pretends a direct swap of the charged offer. */
    method SwapCharged(env: Env, sender: Addr, pools: Duo<nat>, oi: Side,
                       offer: nat) returns (r: Option<(seq<Msg>, SwapReceipt)>)
      modifies this`config, this`balances, this`precommit, this`observations
      ensures
        var s := Spec.Settle(c, pr, env, old(State()), pools, oi, offer, sender);
        && (r.Some? <==> s.Some?)
        && (r.Some? ==> State() == s.value.world && r.value == (s.value.msgs, s.value.receipt))
    {
      hide Unit, FloorDiv, Mul, Decs, ToDec, ToUint, Bal, Spec.Settle, Spec.Accumulate, Spec.Repriced, Spec.Payouts,
        Spec.FeeCharged, Spec.Committed, BalancesAfter;
      SettleUnfolds(c, pr, env, State(), pools, oi, offer, sender);
      var ai := Other(oi);
      var xs, offerDec := Decs(pr, pools), ToDec(offer, pr.precisions.At(oi));
      var computed := ComputeTrade(env, xs, offerDec, oi);
      if computed.None? { return None; }
      var res := computed.value.0;
      xs := computed.value.1;
      var returned := ToUint(res.dy, pr.precisions.At(ai));
      var spread := ToUint(res.spreadFee, pr.precisions.At(ai));
      var repriced := Reprice(env, config, xs, res, offerDec, oi);
      if repriced.None? { return None; }
      var messages, makerFee := PayoutMessages(env, res, ai, returned, sender);
      var observed := Observe(env, oi, offer, offerDec, returned, res.dy);
      if !observed { return None; }

      config := repriced.value;
      RecordIntegers(pools, oi, offer, returned, makerFee);
      var commission := ToUint(res.totalFee, pr.precisions.At(ai));
      return Some((messages, SwapReceipt(offer, returned, spread, commission, makerFee)));
    }

    method SwapExactAmountOut(env: Env, sender: Addr, inDenom: Denom, maxIn: nat, outDenom: Denom, out: nat)
      returns (r: Option<(seq<Msg>, SwapReceipt)>)
      modifies this`config, this`balances, this`precommit, this`observations
      ensures
        var s := Spec.SwapExactOut(c, pr, env, old(State()), sender, inDenom, maxIn, outDenom, out);
        && (r.Some? <==> s.Some?)
        && (r.Some? ==> State() == s.value.world && r.value == (s.value.msgs, s.value.receipt))
    {
      hide Decs, ToDec, ToUint, Bal, Spec.Settle;
      if inDenom == outDenom { return None; }
      var outSide := pr.SideOf(outDenom);
      if outSide.None? { return None; }
      var pools := Duo(Bal(bank, pr.addr, pr.denoms.x0), Bal(bank, pr.addr, pr.denoms.x1));
      if out == 0 { return None; }
      if pools.x0 == 0 || pools.x1 == 0 { return None; }
      var inSide := pr.SideOf(inDenom);
      if inSide.None? { return None; }
      var ai, oi := outSide.value, inSide.value;
      assert ai == Other(oi);
      // The maximum is already in the account.
      if pools.At(oi) < maxIn { return None; }
      pools := pools.With(oi, pools.At(oi) - maxIn);
      var xs := Decs(pr, pools);
      var need := c.computeOffer(xs, ToDec(out, pr.precisions.At(ai)), ai, config, env.time);
      if need.None? { return None; }
      var offer := ToUint(need.value.0, pr.precisions.At(oi));
      if maxIn < offer { return None; }
      r := SwapCharged(env, sender, pools, oi, offer);
    }

    /** Called by the DEX module, which has already forwarded the offer. */
    method SudoSwapExactAmountIn(env: Env, sender0: Addr, denom: Denom, amount: nat, minOut: nat) returns (ok: bool)
      modifies this
      ensures
        var w' := Spec.FinishSwap(pr, Spec.SudoSwapIn(c, pr, env, old(State()), sender0, denom, amount, minOut));
        && (ok <==> w'.Some?) && (ok ==> State() == w'.value)
    {
      hide Spec.InternalSwap, RunMsgs;
      if minOut == 0 { return false; }
      var sender, belief, maxSpread, to := sender0, Some(FloorDiv(amount * ONE, minOut)), Some(0), None;
      if swapParams.Some? {
        var p := swapParams.value;
        sender, belief, maxSpread, to := p.sender, p.beliefPrice, p.maxSpread, p.to;
        swapParams := None;
      }
      var r := InternalSwap(env, sender, denom, amount, belief, maxSpread, to);
      if r.None? { return false; }
      ok := RunMessages(r.value.0);
    }

    method DexSwapIn(env: Env, sender: Addr, denom: Denom, amount: nat, minOut: nat) returns (ok: bool)
      modifies this
      ensures
        var w' := Spec.DexSwapIn(c, pr, env, old(State()), sender, denom, amount, minOut);
        && (ok <==> w'.Some?) && (ok ==> State() == w'.value)
    {
      hide Spec.SudoSwapIn, Spec.Move, RunMsgs;
      ok := Move(sender, pr.addr, denom, amount);
      if !ok { return; }
      ok := SudoSwapExactAmountIn(env, sender, denom, amount, minOut);
    }

    method DexSwapOut(env: Env, sender: Addr, inDenom: Denom, maxIn: nat, outDenom: Denom, out: nat) returns (ok: bool)
      modifies this
      ensures
        var w' := Spec.DexSwapOut(c, pr, env, old(State()), sender, inDenom, maxIn, outDenom, out);
        && (ok <==> w'.Some?) && (ok ==> State() == w'.value)
    {
      hide Spec.SwapExactOut, Spec.Move, RunMsgs;
      ok := Move(sender, pr.addr, inDenom, maxIn);
      if !ok { return; }
      var r := SwapExactAmountOut(env, sender, inDenom, maxIn, outDenom, out);
      if r.None? { return false; }
      ok := RunMessages(r.value.0);
      if !ok || maxIn < r.value.1.offer { return false; }
      // The module returns what was not charged.
      ok := MoveAny(pr.addr, sender, inDenom, maxIn - r.value.1.offer);
    }

    method ExecuteSwap(env: Env, sender: Addr, denom: Denom, amount: nat, belief: Option<Dec>, maxSpread: Option<Dec>,
                       to: Option<Addr>) returns (ok: bool)
      modifies this
      ensures
        var w' := Spec.PairSwap(c, pr, env, old(State()), sender, denom, amount, belief, maxSpread, to);
        && (ok <==> w'.Some?) && (ok ==> State() == w'.value)
    {
      hide Spec.DexSwapIn, Spec.Move;
      ok := Move(sender, pr.addr, denom, amount);
      if !ok { return; }
      var side := pr.SideOf(denom);
      if side.None? { return false; }
      var outDenom := pr.denoms.At(Other(side.value));
      MoveKeepsStorage(State(), old(State()), sender, pr.addr, denom, amount);
      swapParams := Some(SwapParams(belief, maxSpread, sender, to));
      if poolId.None? { return false; }
      if poolId.value == pr.dexPoolId {
        ok := DexSwapIn(env, pr.addr, denom, amount, 1);
      } else if env.foreign.None? {
        return false;
      } else {
        ok := Move(pr.addr, env.foreign.value.0, denom, amount);
        if ok { ok := Move(env.foreign.value.0, pr.addr, outDenom, env.foreign.value.1); }
      }
    }

    // ----- Liquidity -----

    /** Put the named assets in pool order, naming an omitted one with amount zero. */
    method OrderAssets(assets: seq<Coin>) returns (deposits: Option<Duo<nat>>)
      requires pr.Valid()
      ensures deposits == Spec.Deposits(pr, assets)
    {
      var named := assets;
      if |named| == 2 && named[0].denom == named[1].denom { return None; }
      if |named| == 0 || |named| > 2 { return None; }
      if |named| == 1 {
        var given := pr.SideOf(named[0].denom);
        if given.None? { return None; }
        named := named + [Coin(pr.denoms.At(Other(given.value)), 0)];
      }
      if pr.denoms.x0 == named[1].denom {
        named := [named[1], named[0]];
      }
      if pr.SideOf(named[0].denom).None? || pr.SideOf(named[1].denom).None? { return None; }
      return Some(Duo(named[0].amount, named[1].amount));
    }

    /** The share a provide earns. */
    method EarnedShare(env: Env, pools: Duo<Dec>, deposits: Duo<Dec>, total: Dec) returns (share: Option<Dec>)
      ensures share == Spec.ShareOf(c, config, c.ampGammaAt(config.state, env.time), pools, deposits, total)
    {
      hide Mul, Div;
      var scale := config.state.price.priceScale;
      var newXp := Scaled(Duo(pools.x0 + deposits.x0, pools.x1 + deposits.x1), scale);
      var ampGamma := c.ampGammaAt(config.state, env.time);
      var newD := c.calcD(newXp, ampGamma);
      if newD.None? { return None; }
      if total == 0 {
        var xcp := c.getXcp(newD.value, scale);
        if xcp.None? { return None; }
        var mintAmount := SatSub(xcp.value, ToDec(c.minLiquidity, LP_TOKEN_PRECISION));
        if mintAmount == 0 { return None; }
        return Some(mintAmount);
      }
      var oldD := c.calcD(Scaled(pools, scale), ampGamma);
      if oldD.None? || oldD.value == 0 { return None; }
      var gross := SatSub(Div(Mul(total, newD.value), oldD.value), total);
      var fee := c.provideFee(Scaled(deposits, scale), newXp, config.params);
      if ONE < fee { return None; }
      return Some(Mul(gross, ONE - fee));
    }

    /** A deposit far from balanced is checked for slippage and moves the price. */
    method RepriceByProvide(env: Env, cfg: Config, newXp: Duo<Dec>, deposits: Duo<Dec>, total: Dec, share: Dec,
                            tolerance: Option<Dec>) returns (r: Option<Config>)
      ensures r == Spec.RepricedByProvide(c, cfg, env.time, newXp, deposits, total, share, tolerance)
      ensures r.Some? ==> r.value.trackBalances == cfg.trackBalances
    {
      hide Mul, Div;
      var scale := cfg.state.price.priceScale;
      if total + share == 0 || scale == 0 { return None; }
      var ratio := Div(share, total + share);
      var diff0 := Diff(deposits.x0, Mul(newXp.x0, ratio));
      var diff1 := Diff(deposits.x1, Div(Mul(newXp.x1, ratio), scale));
      r := Some(cfg);
      if diff0 >= c.minTradeSize && diff1 >= c.minTradeSize {
        if !c.slippageCheck(deposits, share, cfg.state.price, tolerance) || diff1 == 0 { return None; }
        var st := c.updatePrice(cfg.state, cfg.params, env.time, total + share, newXp, Div(diff0, diff1));
        if st.None? { return None; }
        r := Some(cfg.(state := st.value));
      }
    }

    method RecordDeposits(ghost held: Duo<nat>, pools: Duo<Dec>, deposits: Duo<Dec>)
      requires Decs(pr, held) == Duo(pools.x0 + deposits.x0, pools.x1 + deposits.x1)
      modifies this`balances
      ensures balances == if config.trackBalances
        then old(balances)[pr.denoms.x0 := held.x0][pr.denoms.x1 := held.x1] else old(balances)
    {
      hide Unit, ToUint, ToDec;
      RoundTrip(held.x0, pr.precisions.x0);
      RoundTrip(held.x1, pr.precisions.x1);
      if config.trackBalances {
        balances := balances[pr.denoms.x0 := ToUint(pools.x0 + deposits.x0, pr.precisions.x0)];
        balances := balances[pr.denoms.x1 := ToUint(pools.x1 + deposits.x1, pr.precisions.x1)];
      }
    }

    method ProvideLiquidity(env: Env, sender: Addr, dep: Duo<nat>, tolerance: Option<Dec>, receiver: Option<Addr>)
      returns (r: Option<seq<Msg>>)
      modifies this`config, this`balances
      ensures
        var h := Spec.ProvideLiquidity(c, pr, env, old(State()), sender, dep, tolerance, receiver);
        && (r.Some? <==> h.Some?)
        && (r.Some? ==> State() == h.value.world && r.value == h.value.msgs)
    {
      hide Bal, ToDec, ToUint, Unit, FloorDiv, Mul, Div, Spec.ShareOf, Spec.RepricedByProvide, Scaled, UnwrapOr;
      if !env.registered { return None; }
      ghost var held := Reserves(pr, State());
      var pools := Decs(pr, Duo(Bal(bank, pr.addr, pr.denoms.x0), Bal(bank, pr.addr, pr.denoms.x1)));
      var deposits := Decs(pr, dep);
      var total := ToDec(lpSupply, LP_TOKEN_PRECISION);
      if total == 0 && (deposits.x0 == 0 || deposits.x1 == 0) { return None; }
      DecsOrder(pr, held, 0, dep.x0);
      DecsOrder(pr, held, 1, dep.x1);
      // The deposits are already in the account.
      if pools.x0 < deposits.x0 || pools.x1 < deposits.x1 { return None; }
      DecsLess(pr, held, 0, dep.x0);
      DecsLess(pr, held, 1, dep.x1);
      pools := Duo(pools.x0 - deposits.x0, pools.x1 - deposits.x1);

      var scale := config.state.price.priceScale;
      var newXp := Scaled(Duo(pools.x0 + deposits.x0, pools.x1 + deposits.x1), scale);
      var earned := EarnedShare(env, pools, deposits, total);
      if earned.None? { return None; }
      var share := earned.value;
      var cfg := config;
      var messages := [];
      if total == 0 {
        messages := [Mint(pr.addr, Coin(pr.lpDenom, c.minLiquidity))];
        cfg := cfg.(state := cfg.state.(price := cfg.state.price.(xcpProfitReal := ONE)));
        cfg := cfg.(state := cfg.state.(price := cfg.state.price.(xcpProfit := ONE)));
      }

      var repriced := RepriceByProvide(env, cfg, newXp, deposits, total, share, tolerance);
      if repriced.None? { return None; }
      cfg := repriced.value;

      messages := messages + [Mint(UnwrapOr(receiver, sender), Coin(pr.lpDenom, ToUint(share, LP_TOKEN_PRECISION)))];
      config := cfg;
      RecordDeposits(held, pools, deposits);
      return Some(messages);
    }

    method Provide(env: Env, sender: Addr, assets: seq<Coin>, tolerance: Option<Dec>,
                   receiver: Option<Addr>) returns (ok: bool)
      requires pr.Valid()
      modifies this
      ensures
        var w' := Spec.ProvideTx(c, pr, env, old(State()), sender, assets, tolerance, receiver);
        && (ok <==> w'.Some?) && (ok ==> State() == w'.value)
    {
      hide Spec.ProvideLiquidity, Spec.Move, Spec.Deposits, RunMsgs;
      var dep := OrderAssets(assets);
      if dep.None? { return false; }
      ok := MoveAny(sender, pr.addr, pr.denoms.x0, dep.value.x0);
      if !ok { return; }
      ok := MoveAny(sender, pr.addr, pr.denoms.x1, dep.value.x1);
      if !ok { return; }
      var r := ProvideLiquidity(env, sender, dep.value, tolerance, receiver);
      if r.None? { return false; }
      ok := RunMessages(r.value);
    }

    /** The curve's xcp of the given reserves. */
    method XcpOf(env: Env, reserves: Duo<Dec>) returns (xcp: Option<Dec>)
      ensures
        var scale := config.state.price.priceScale;
        var d := c.calcD(Scaled(reserves, scale), c.ampGammaAt(config.state, env.time));
        xcp == if d.None? then None else c.getXcp(d.value, scale)
    {
      hide Mul;
      var xs := reserves;
      xs := xs.With(1, Mul(xs.x1, config.state.price.priceScale));
      var d := c.calcD(xs, c.ampGammaAt(config.state, env.time));
      if d.None? { return None; }
      xcp := c.getXcp(d.value, config.state.price.priceScale);
    }

    method RecordRefund(ghost held: Duo<nat>, pools: Duo<Dec>, refund: Duo<nat>)
      requires pools == Decs(pr, held) && refund.x0 <= held.x0 && refund.x1 <= held.x1
      modifies this`balances
      ensures balances == if config.trackBalances
        then old(balances)[pr.denoms.x0 := held.x0 - refund.x0][pr.denoms.x1 := held.x1 - refund.x1] else old(balances)
    {
      hide Unit, ToUint, ToDec;
      RoundTrip(held.x0, pr.precisions.x0);
      RoundTrip(held.x1, pr.precisions.x1);
      if config.trackBalances {
        balances := balances[pr.denoms.x0 := ToUint(pools.x0, pr.precisions.x0) - refund.x0];
        balances := balances[pr.denoms.x1 := ToUint(pools.x1, pr.precisions.x1) - refund.x1];
      }
    }

    method WithdrawLiquidity(env: Env, sender: Addr, amount: nat, assets: seq<Coin>) returns (r: Option<seq<Msg>>)
      modifies this`config, this`balances
      ensures
        var h := Spec.WithdrawLiquidity(c, pr, env, old(State()), sender, amount, assets);
        && (r.Some? <==> h.Some?)
        && (r.Some? ==> State() == h.value.world && r.value == h.value.msgs)
    {
      hide Bal, ToUint, ToDec, Unit, FloorDiv, Div, Mul, Scaled, Spec.ShareInAsset;
      if amount == 0 { return None; }
      ghost var held := Reserves(pr, State());
      var pools := Decs(pr, Duo(Bal(bank, pr.addr, pr.denoms.x0), Bal(bank, pr.addr, pr.denoms.x1)));
      var total := lpSupply;
      if assets != [] { return None; }
      var share0 := Spec.ShareInAsset(pools.x0, SatSub(amount, 1), total);
      var share1 := Spec.ShareInAsset(pools.x1, SatSub(amount, 1), total);

      if pools.x0 < share0 || pools.x1 < share1 { return None; }
      var xcp := XcpOf(env, Duo(pools.x0 - share0, pools.x1 - share1));
      if xcp.None? { return None; }
      if total <= amount { return None; }
      var perShare := Div(xcp.value, ToDec(total - amount, LP_TOKEN_PRECISION));

      var refund := Duo(ToUint(share0, pr.precisions.x0), ToUint(share1, pr.precisions.x1));
      var messages := [Pay(sender, Coin(pr.denoms.x0, refund.x0)), Pay(sender, Coin(pr.denoms.x1, refund.x1))];
      messages := messages + [Burn(pr.addr, Coin(pr.lpDenom, amount))];
      RefundWithin(share0, held.x0, pr.precisions.x0);
      RefundWithin(share1, held.x1, pr.precisions.x1);
      RecordRefund(held, pools, refund);
      config := config.(state := config.state.(price := config.state.price.(xcpProfitReal := perShare)));
      return Some(messages);
    }

    method Withdraw(env: Env, sender: Addr, funds: seq<Coin>, assets: seq<Coin>) returns (ok: bool)
      modifies this
      ensures
        var w' := Spec.WithdrawTx(c, pr, env, old(State()), sender, funds, assets);
        && (ok <==> w'.Some?) && (ok ==> State() == w'.value)
    {
      hide Spec.WithdrawLiquidity, Spec.Move, RunMsgs;
      if |funds| != 1 || funds[0].denom != pr.lpDenom { return false; }
      ok := Move(sender, pr.addr, pr.lpDenom, funds[0].amount);
      if !ok { return; }
      var r := WithdrawLiquidity(env, sender, funds[0].amount, assets);
      if r.None? { return false; }
      ok := RunMessages(r.value);
    }

    // ----- Administration -----

    method SetPoolId(sender: Addr, id: nat) returns (ok: bool)
      modifies this`poolId
      ensures
        var w' := Spec.SetPoolId(pr, old(State()), sender, id);
        && (ok <==> w'.Some?) && (ok ==> State() == w'.value)
    {
      if sender != pr.factory || poolId.Some? { return false; }
      poolId := Some(id);
      return true;
    }

    method EnableTracking(env: Env, sender: Addr) returns (ok: bool)
      modifies this`config, this`balances
      ensures
        var w' := Spec.EnableTracking(pr, env, old(State()), sender);
        && (ok <==> w'.Some?) && (ok ==> State() == w'.value)
    {
      if sender != env.owner || config.trackBalances { return false; }
      config := config.(trackBalances := true);
      balances := balances[pr.denoms.x0 := Bal(bank, pr.addr, pr.denoms.x0)];
      balances := balances[pr.denoms.x1 := Bal(bank, pr.addr, pr.denoms.x1)];
      return true;
    }

    /** A whole transaction: on failure everything it did is undone. */
    method Transact(s: Spec.Step)
      requires pr.Valid()
      modifies this
      ensures State() == Spec.Exec(c, pr, old(State()), s)
    {
      hide Spec.ProvideTx, Spec.WithdrawTx, Spec.PairSwap, Spec.DexSwapIn, Spec.DexSwapOut, Spec.Move, Spec.SetPoolId,
        Spec.EnableTracking;
      var before, ok := State(), false;
      match s.action {
        case Provide(sender, assets, tolerance, receiver) => ok := Provide(s.env, sender, assets, tolerance, receiver);
        case Withdraw(sender, funds, wanted) => ok := Withdraw(s.env, sender, funds, wanted);
        case SwapViaPair(sender, offer, belief, maxSpread, to) =>
          ok := ExecuteSwap(s.env, sender, offer.denom, offer.amount, belief, maxSpread, to);
        case SwapIn(sender, offer, minOut) => ok := DexSwapIn(s.env, sender, offer.denom, offer.amount, minOut);
        case SwapOut(sender, inDenom, maxIn, out) =>
          ok := DexSwapOut(s.env, sender, inDenom, maxIn, out.denom, out.amount);
        case SetId(sender, id) => ok := SetPoolId(sender, id);
        case Track(sender) => ok := EnableTracking(s.env, sender);
        case Tune(sender, params, state) =>
          if sender == s.env.owner && state.price == config.state.price {
            config, ok := config.(params := params, state := state), true;
          }
        case Transfer(sender, payee, coin) => ok := Move(sender, payee, coin.denom, coin.amount);
      }
      if !ok { Restore(before); }
    }
  }

  /** Truncating a part of a reserve gives no more tokens than the reserve has. */
  lemma RefundWithin(share: Dec, held: nat, p: Precision)
    requires share <= ToDec(held, p)
    ensures ToUint(share, p) <= held
  {
    CancelLe(ToUint(share, p), held, Unit(p));
  }

  lemma MoveKeepsStorage(w': World, w: World, from: Addr, to: Addr, d: Denom, n: nat)
    requires Spec.Move(w, from, to, d, n) == Some(w')
    ensures w' == w.(ledger := w'.ledger)
  {
  }

  /** The balances a settled trade records. */
  function BalancesAfter(pr: Pair, b: map<Denom, nat>, track: bool, r: Duo<nat>, os: Side, offer: nat,
                         out: nat): map<Denom, nat>
    requires out <= r.At(Other(os))
  {
    if track then b[pr.denoms.At(os) := r.At(os) + offer][pr.denoms.At(Other(os)) := r.At(Other(os)) - out] else b
  }

  /** Settle, one part at a time. */
  lemma SettleUnfolds(c: Curve, pr: Pair, env: Env, w: World, r: Duo<nat>, os: Side, offer: nat, receiver: Addr)
    ensures
      var ai, xs, offerDec := Other(os), Decs(pr, r), ToDec(offer, pr.precisions.At(os));
      var settled := Spec.Settle(c, pr, env, w, r, os, offer, receiver);
      var res := c.computeSwap(xs, offerDec, ai, w.config, env.time, env.fee.MakerShare());
      if res.None? || xs.At(ai) < res.value.dy + res.value.makerFee then settled.None? else
      var after := xs.With(os, xs.At(os) + offerDec).With(ai, xs.At(ai) - (res.value.dy + res.value.makerFee));
      var cfg := Spec.Repriced(c, w.config, env.time, w.ledger.lpSupply, after, res.value, offerDec, os);
      var obs := Spec.Accumulate(c, w.precommit, w.observations, env.time);
      var returned, charged := ToUint(res.value.dy, pr.precisions.At(ai)), Spec.FeeCharged(pr, env.fee, res.value, ai);
      if cfg.None? || obs.None? then settled.None? else
      && returned + charged <= r.At(ai)
      && settled == Some(Spec.Swapped(
           w.(config := cfg.value, observations := obs.value,
              precommit := Spec.Committed(c, w.precommit, env.time, os, offer, offerDec, returned, res.value.dy),
              balances := BalancesAfter(pr, w.balances, cfg.value.trackBalances, r, os, offer, returned + charged)),
           Spec.Payouts(pr, env.fee, ai, returned, charged, receiver),
           SwapReceipt(offer, returned, ToUint(res.value.spreadFee, pr.precisions.At(ai)),
                       ToUint(res.value.totalFee, pr.precisions.At(ai)), charged)))
  {
    hide Spec.Repriced, Spec.Accumulate, Spec.Payouts, Spec.Committed, ToUint, Mul;
    var ai, xs, offerDec := Other(os), Decs(pr, r), ToDec(offer, pr.precisions.At(os));
    var res := c.computeSwap(xs, offerDec, ai, w.config, env.time, env.fee.MakerShare());
    if res.Some? && res.value.dy + res.value.makerFee <= xs.At(ai) {
      Spec.PayoutFits(pr, env.fee, res.value, ai, r.At(ai));
    }
  }

  /** InternalSwap, stated over the reserves before the offer. */
  lemma SwapUnfolds(c: Curve, pr: Pair, env: Env, w: World, sender: Addr, denom: Denom, offer: nat, belief: Option<Dec>,
                    maxSpread: Option<Dec>, to: Option<Addr>)
    ensures
      var swapped := Spec.InternalSwap(c, pr, env, w, sender, denom, offer, belief, maxSpread, to);
      if pr.SideOf(denom).None? || Reserves(pr, w).At(pr.SideOf(denom).value) < offer then swapped.None? else
      var oi, held := pr.SideOf(denom).value, Reserves(pr, w);
      var prior := held.With(oi, held.At(oi) - offer);
      var s := Spec.Settle(c, pr, env, w, prior, oi, offer, UnwrapOr(to, sender));
      swapped == if c.swapCheck(Decs(pr, prior), ToDec(offer, pr.precisions.At(oi))) && s.Some?
                    && c.spreadCheck(belief, maxSpread, offer, s.value.receipt.returned, s.value.receipt.spread)
                 then s else None
  {
  }

  /** Comparing and subtracting in decimals is comparing and subtracting in tokens. */
  lemma DecsOrder(pr: Pair, held: Duo<nat>, i: Side, x: nat)
    ensures Decs(pr, held).At(i) < ToDec(x, pr.precisions.At(i)) <==> held.At(i) < x
    ensures forall j: Side :: Decs(pr, held).At(j) == ToDec(held.At(j), pr.precisions.At(j))
  {
    var p := pr.precisions.At(i);
    if held.At(i) < x { MulMono(held.At(i) + 1, x, Unit(p)); Distribute(held.At(i), 1, Unit(p)); }
    else { MulMono(x, held.At(i), Unit(p)); }
  }

  lemma DecsLess(pr: Pair, held: Duo<nat>, i: Side, x: nat)
    requires x <= held.At(i)
    ensures ToDec(x, pr.precisions.At(i)) <= Decs(pr, held).At(i)
    ensures Decs(pr, held).With(i, Decs(pr, held).At(i) - ToDec(x, pr.precisions.At(i)))
         == Decs(pr, held.With(i, held.At(i) - x))
  {
    ToDecAdd(held.At(i) - x, x, pr.precisions.At(i));
  }
}
