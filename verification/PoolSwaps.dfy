/** Swap results: what a settlement moves, that the three routes to one agree, and that the queries predict it. */
module PoolSwaps {
  import opened Outcome
  import opened FixedPoint
  import opened Bank
  import opened PoolTypes
  import opened PoolSpec
  import opened PoolMessages

  /** Two ledgers in which every account holds the same. */
  ghost predicate SameLedger(g: Ledger, h: Ledger) {
    g.lpSupply == h.lpSupply && forall a, d :: Bal(g.bank, a, d) == Bal(h.bank, a, d)
  }

  /** The same chain state, up to how the books are written down. */
  ghost predicate SameWorld(w: World, v: World) {
    SameLedger(w.ledger, v.ledger) && w == v.(ledger := w.ledger)
  }

  ghost predicate Paid(pr: Pair, b: Book, b': Book, ask: Denom, receiver: Addr, returned: nat, fee: Option<Addr>,
                       charged: nat) {
    forall a, d :: (Bal(b', a, d) == Bal(b, a, d) + if d != ask then 0 else
      (if a == receiver then returned else 0) + (if fee == Some(a) then charged else 0)
      - (if a == pr.addr then returned + charged else 0))
  }

  /** The net effect of a settled swap on every account, whoever the payees are. Something is always returned. */
  lemma SettledPayments(c: Curve, pr: Pair, env: Env, w: World, r: Duo<nat>, os: Side, offer: nat, receiver: Addr,
                        e: Denom)
    requires FinishSwap(pr, Settle(c, pr, env, w, r, os, offer, receiver)).Some?
    ensures
      var s := Settle(c, pr, env, w, r, os, offer, receiver).value;
      var w' := FinishSwap(pr, Some(s)).value;
      && w' == s.world.(ledger := w'.ledger) && w'.ledger.lpSupply == w.ledger.lpSupply
      && Total(w'.ledger.bank, e) == Total(w.ledger.bank, e)
      && Paid(pr, w.ledger.bank, w'.ledger.bank, pr.denoms.At(Other(os)), receiver, s.receipt.returned,
              env.fee.feeAddress, s.receipt.makerFee)
      && s.receipt.returned > 0
  {
    var s := Settle(c, pr, env, w, r, os, offer, receiver).value;
    assert s.msgs[0] == Pay(receiver, Coin(pr.denoms.At(Other(os)), s.receipt.returned));
    PayoutsShape(pr, env.fee, Other(os), s.receipt.returned, s.receipt.makerFee, receiver);
    PayEffect(pr.addr, w.ledger, s.msgs, e);
  }

  // ----- One trade, three routes -----

  /** Undoing an outside deposit gives back the reserves held before it. */
  lemma UndoDeposit(pr: Pair, w: World, sender: Addr, denom: Denom, x: nat)
    requires pr.Valid() && sender != pr.addr && pr.SideOf(denom).Some? && Move(w, sender, pr.addr, denom, x).Some?
    ensures
      var os, held := pr.SideOf(denom).value, Reserves(pr, Move(w, sender, pr.addr, denom, x).value);
      held.At(os) >= x && held.With(os, held.At(os) - x) == Reserves(pr, w)
  {
    SendMoves(w.ledger.bank, sender, pr.addr, denom, x);
  }

  /** Settling depends on the books only through the reserves it is given. */
  lemma SettleIgnoresBooks(c: Curve, pr: Pair, env: Env, w: World, v: World, r: Duo<nat>, os: Side, offer: nat,
                           receiver: Addr, receiver': Addr)
    requires v == w.(ledger := v.ledger) && v.ledger.lpSupply == w.ledger.lpSupply
    ensures
      var s, t := Settle(c, pr, env, w, r, os, offer, receiver), Settle(c, pr, env, v, r, os, offer, receiver');
      && (s.Some? <==> t.Some?)
      && (s.Some? ==> (
            && s.value.receipt == t.value.receipt && s.value.world == t.value.world.(ledger := w.ledger)
            && s.value.world.ledger == w.ledger && t.value.world.ledger == v.ledger))
  {
  }

  /** The same trade settled on two books, for two receivers: every account changes alike, except that the
      proceeds reach the receiver of each. */
  lemma SameTrade(c: Curve, pr: Pair, env: Env, w: World, v: World, r: Duo<nat>, os: Side, offer: nat, receiver: Addr,
                  receiver': Addr)
    requires v == w.(ledger := v.ledger) && v.ledger.lpSupply == w.ledger.lpSupply
    requires FinishSwap(pr, Settle(c, pr, env, w, r, os, offer, receiver)).Some?
    requires FinishSwap(pr, Settle(c, pr, env, v, r, os, offer, receiver')).Some?
    ensures
      var w', v' := FinishSwap(pr, Settle(c, pr, env, w, r, os, offer, receiver)).value,
                    FinishSwap(pr, Settle(c, pr, env, v, r, os, offer, receiver')).value;
      var returned := Settle(c, pr, env, w, r, os, offer, receiver).value.receipt.returned;
      && w' == v'.(ledger := w'.ledger) && w'.ledger.lpSupply == v'.ledger.lpSupply
      && SameChange(pr.denoms.At(Other(os)), returned, receiver, receiver', w.ledger.bank, w'.ledger.bank,
                    v.ledger.bank, v'.ledger.bank)
  {
    SettledPayments(c, pr, env, w, r, os, offer, receiver, pr.lpDenom);
    SettledPayments(c, pr, env, v, r, os, offer, receiver', pr.lpDenom);
    SettleIgnoresBooks(c, pr, env, w, v, r, os, offer, receiver, receiver');
    var s, t := Settle(c, pr, env, w, r, os, offer, receiver), Settle(c, pr, env, v, r, os, offer, receiver');
    PaidAlike(pr, env.fee.feeAddress, pr.denoms.At(Other(os)), s.value.receipt.returned, s.value.receipt.makerFee,
              receiver, receiver', w.ledger.bank, FinishSwap(pr, s).value.ledger.bank, v.ledger.bank,
              FinishSwap(pr, t).value.ledger.bank);
  }

  lemma PaidAlike(pr: Pair, fee: Option<Addr>, ask: Denom, returned: nat, charged: nat, receiver: Addr, receiver': Addr,
                  b: Book, b': Book, d: Book, d': Book)
    requires Paid(pr, b, b', ask, receiver, returned, fee,
                  charged) && Paid(pr, d, d', ask, receiver', returned, fee, charged)
    ensures SameChange(ask, returned, receiver, receiver', b, b', d, d')
  {
  }

  ghost predicate SameChange(ask: Denom, returned: nat, receiver: Addr, receiver': Addr, b: Book, b': Book, d: Book,
                             d': Book) {
    forall a, e :: (Bal(b', a, e) - Bal(b, a, e) - (if a == receiver && e == ask then returned else 0)
                    == Bal(d', a, e) - Bal(d, a, e) - (if a == receiver' && e == ask then returned else 0))
  }

  /** A direct swap is a settlement against the reserves held before the offer arrived. */
  lemma DirectSwapIsSettlement(c: Curve, pr: Pair, env: Env, w: World, sender: Addr, denom: Denom, x: nat, minOut: nat)
    requires pr.Valid() && sender != pr.addr && w.swapParams.None?
    requires DexSwapIn(c, pr, env, w, sender, denom, x, minOut).Some?
    ensures pr.SideOf(denom).Some? && Move(w, sender, pr.addr, denom, x).Some?
    ensures
      var os := pr.SideOf(denom).value;
      var m := Move(w, sender, pr.addr, denom, x).value;
      var s := Settle(c, pr, env, m, Reserves(pr, w), os, x, sender);
      s.Some? && DexSwapIn(c, pr, env, w, sender, denom, x, minOut) == FinishSwap(pr, s)
  {
    hide Settle, RunMsgs, Send, Decs, ToDec;
    UndoDeposit(pr, w, sender, denom, x);
  }

  lemma ReceiptNamesOffer(c: Curve, pr: Pair, env: Env, w: World, r: Duo<nat>, os: Side, offer: nat, receiver: Addr)
    ensures
      var s := Settle(c, pr, env, w, r, os, offer, receiver);
      s.Some? ==> s.value.receipt.offer == offer
  {
  }

  /** The offer that an output of `out` costs, from the reserves before the swap. */
  function ChargedFor(c: Curve, pr: Pair, env: Env, w: World, os: Side, out: nat): Option<nat> {
    var need := c.computeOffer(Decs(pr, Reserves(pr, w)), ToDec(out, pr.precisions.At(Other(os))), Other(os), w.config,
                               env.time);
    if need.None? then None else Some(ToUint(need.value.0, pr.precisions.At(os)))
  }

  /** An exact-output swap settles the charged offer against the same reserves. */
  lemma ExactOutIsSettlement(c: Curve, pr: Pair, env: Env, w: World, sender: Addr, inDenom: Denom, maxIn: nat,
                             outDenom: Denom, out: nat)
    requires pr.Valid() && sender != pr.addr
    requires DexSwapOut(c, pr, env, w, sender, inDenom, maxIn, outDenom, out).Some?
    ensures pr.SideOf(inDenom).Some? && pr.SideOf(outDenom) == Some(Other(pr.SideOf(inDenom).value))
    ensures
      var os := pr.SideOf(inDenom).value;
      var m := Move(w, sender, pr.addr, inDenom, maxIn).value;
      var s := SwapExactOut(c, pr, env, m, sender, inDenom, maxIn, outDenom, out);
      && s.Some? && s.value.receipt.offer <= maxIn && ChargedFor(c, pr, env, w, os, out) == Some(s.value.receipt.offer)
      && s == Settle(c, pr, env, m, Reserves(pr, w), os, s.value.receipt.offer, sender)
      && FinishSwap(pr, s).Some?
      && DexSwapOut(c, pr, env, w, sender, inDenom, maxIn, outDenom, out)
         == MoveAny(FinishSwap(pr, s).value, pr.addr, sender, inDenom, maxIn - s.value.receipt.offer)
  {
    hide Settle, RunMsgs, Send;
    UndoDeposit(pr, w, sender, inDenom, maxIn);
    var os := pr.SideOf(inDenom).value;
    ReceiptNamesOffer(c, pr, env, Move(w, sender, pr.addr, inDenom, maxIn).value, Reserves(pr, w), os,
                      ChargedFor(c, pr, env, w, os, out).value, sender);
  }

  /** Sending maxIn and getting maxIn - x back comes to the same as sending x. */
  lemma RefundEvensOut(b: Book, bm: Book, fm: Book, end: Book, bn: Book, fn: Book, sender: Addr, pair: Addr, d: Denom,
                       maxIn: nat, x: nat, ask: Denom, returned: nat, receiver: Addr)
    requires x <= maxIn && Moved(b, bm, sender, pair, d, maxIn) && Moved(b, bn, sender, pair, d, x)
    requires SameChange(ask, returned, receiver, receiver, bm, fm, bn, fn) && Moved(fm, end, pair, sender, d, maxIn - x)
    ensures forall a, e :: Bal(end, a, e) == Bal(fn, a, e)
  {
  }

  /** Buying an exact output that costs x and swapping x in directly end in the same chain state. */
  lemma ExactOutEqualsDirectSwap(c: Curve, pr: Pair, env: Env, w: World, sender: Addr, inDenom: Denom, maxIn: nat,
                                 outDenom: Denom, out: nat, minOut: nat)
    requires pr.Valid() && sender != pr.addr && w.swapParams.None?
    requires DexSwapOut(c, pr, env, w, sender, inDenom, maxIn, outDenom, out).Some?
    requires
      var m := Move(w, sender, pr.addr, inDenom, maxIn).value;
      var s := SwapExactOut(c, pr, env, m, sender, inDenom, maxIn, outDenom, out);
      s.Some? && DexSwapIn(c, pr, env, w, sender, inDenom, s.value.receipt.offer, minOut).Some?
    ensures
      var m := Move(w, sender, pr.addr, inDenom, maxIn).value;
      var x := SwapExactOut(c, pr, env, m, sender, inDenom, maxIn, outDenom, out).value.receipt.offer;
      SameWorld(DexSwapOut(c, pr, env, w, sender, inDenom, maxIn, outDenom, out).value,
                DexSwapIn(c, pr, env, w, sender, inDenom, x, minOut).value)
  {
    hide Settle, SwapExactOut, InternalSwap, SudoSwapIn, DexSwapIn, RunMsgs, Send, Bal;
    ExactOutIsSettlement(c, pr, env, w, sender, inDenom, maxIn, outDenom, out);
    var os := pr.SideOf(inDenom).value;
    var m := Move(w, sender, pr.addr, inDenom, maxIn).value;
    var x := SwapExactOut(c, pr, env, m, sender, inDenom, maxIn, outDenom, out).value.receipt.offer;
    DirectSwapIsSettlement(c, pr, env, w, sender, inDenom, x, minOut);
    var n := Move(w, sender, pr.addr, inDenom, x).value;
    SameTrade(c, pr, env, m, n, Reserves(pr, w), os, x, sender, sender);
    var s := Settle(c, pr, env, m, Reserves(pr, w), os, x, sender);
    var fm, fn := FinishSwap(pr, s).value, DexSwapIn(c, pr, env, w, sender, inDenom, x, minOut).value;
    SendMoves(w.ledger.bank, sender, pr.addr, inDenom, maxIn);
    SendMoves(w.ledger.bank, sender, pr.addr, inDenom, x);
    SendMoves(fm.ledger.bank, pr.addr, sender, inDenom, maxIn - x);
    RefundEvensOut(w.ledger.bank, m.ledger.bank, fm.ledger.bank,
                   MoveAny(fm, pr.addr, sender, inDenom, maxIn - x).value.ledger.bank,
                   n.ledger.bank, fn.ledger.bank, sender, pr.addr, inDenom, maxIn, x, pr.denoms.At(Other(os)),
                   s.value.receipt.returned, sender);
  }

  /** A swap dispatched by the pair settles against the same reserves, for the recorded receiver,
      and uses up the recorded parameters. */
  lemma DispatchIsSettlement(c: Curve, pr: Pair, env: Env, w: World, sender: Addr, denom: Denom, x: nat,
                             belief: Option<Dec>, maxSpread: Option<Dec>, to: Option<Addr>) returns (n: World)
    requires pr.Valid() && sender != pr.addr && w.poolId == Some(pr.dexPoolId)
    requires PairSwap(c, pr, env, w, sender, denom, x, belief, maxSpread, to).Some?
    ensures pr.SideOf(denom).Some? && Move(w, sender, pr.addr, denom, x).Some?
    ensures SameWorld(n, Move(w, sender, pr.addr, denom, x).value.(swapParams := None))
    ensures Total(n.ledger.bank, pr.lpDenom) == Total(w.ledger.bank, pr.lpDenom)
    ensures
      var s := Settle(c, pr, env, n, Reserves(pr, w), pr.SideOf(denom).value, x, UnwrapOr(to, sender));
      s.Some? && PairSwap(c, pr, env, w, sender, denom, x, belief, maxSpread, to) == FinishSwap(pr, s)
  {
    hide Settle, RunMsgs, Send;
    var os := pr.SideOf(denom).value;
    var w1 := Move(w, sender, pr.addr, denom, x).value.(swapParams := Some(SwapParams(belief, maxSpread, sender, to)));
    n := Move(w1, pr.addr, pr.addr, denom, x).value.(swapParams := None);
    UndoDeposit(pr, w, sender, denom, x);
    SendMoves(w.ledger.bank, sender, pr.addr, denom, x);
    SendMoves(w1.ledger.bank, pr.addr, pr.addr, denom, x);
    assert Reserves(pr, n) == Reserves(pr, w1);
  }

  /** A pair-dispatched swap and a direct one leave the same pool; when the proceeds go to the sender,
      the whole chain is the same. */
  lemma DispatchEqualsDirectSwap(c: Curve, pr: Pair, env: Env, w: World, sender: Addr, denom: Denom, x: nat,
                                 belief: Option<Dec>, maxSpread: Option<Dec>, to: Option<Addr>, minOut: nat)
    requires pr.Valid() && sender != pr.addr && w.swapParams.None? && w.poolId == Some(pr.dexPoolId)
    requires PairSwap(c, pr, env, w, sender, denom, x, belief, maxSpread, to).Some?
    requires DexSwapIn(c, pr, env, w, sender, denom, x, minOut).Some?
    ensures
      var v, u := PairSwap(c, pr, env, w, sender, denom, x, belief, maxSpread, to).value,
                  DexSwapIn(c, pr, env, w, sender, denom, x, minOut).value;
      && v == u.(ledger := v.ledger) && v.ledger.lpSupply == u.ledger.lpSupply
      && (to != Some(pr.addr) ==> Reserves(pr, v) == Reserves(pr, u))
      && (UnwrapOr(to, sender) == sender ==> SameWorld(v, u))
  {
    hide Settle, InternalSwap, SudoSwapIn, PairSwap, DexSwapIn, RunMsgs, Send;
    var n := DispatchIsSettlement(c, pr, env, w, sender, denom, x, belief, maxSpread, to);
    DirectSwapIsSettlement(c, pr, env, w, sender, denom, x, minOut);
    var os := pr.SideOf(denom).value;
    var m := Move(w, sender, pr.addr, denom, x).value;
    SameTrade(c, pr, env, n, m, Reserves(pr, w), os, x, UnwrapOr(to, sender), sender);
  }

  // ----- Queries -----

  /** The simulation asked before a swap gives that swap's return, spread and commission. */
  lemma SimulationPredictsSwap(c: Curve, pr: Pair, env: Env, w: World, sender: Addr, denom: Denom, offer: nat,
                               belief: Option<Dec>, maxSpread: Option<Dec>, to: Option<Addr>)
    requires pr.Valid() && sender != pr.addr && Move(w, sender, pr.addr, denom, offer).Some?
    requires InternalSwap(c, pr, env, Move(w, sender, pr.addr, denom, offer).value, sender, denom, offer, belief,
                          maxSpread, to).Some?
    ensures
      var m := Move(w, sender, pr.addr, denom, offer).value;
      var got := InternalSwap(c, pr, env, m, sender, denom, offer, belief, maxSpread, to).value.receipt;
      QuerySimulation(c, pr, env, w, denom, offer) == Some(Simulation(got.returned, got.spread, got.commission))
  {
    UndoDeposit(pr, w, sender, denom, offer);
  }

  /** The reverse simulation asked before an exact-output swap gives the offer it charges, unless the
      query's own preliminary check refuses. */
  lemma ReverseSimulationPredictsOffer(c: Curve, pr: Pair, env: Env, w: World, sender: Addr, inDenom: Denom, maxIn: nat,
                                       outDenom: Denom, out: nat)
    requires pr.Valid() && sender != pr.addr && Move(w, sender, pr.addr, inDenom, maxIn).Some?
    requires SwapExactOut(c, pr, env, Move(w, sender, pr.addr, inDenom, maxIn).value, sender, inDenom, maxIn, outDenom,
                          out).Some?
    ensures
      var m := Move(w, sender, pr.addr, inDenom, maxIn).value;
      var charged := SwapExactOut(c, pr, env, m, sender, inDenom, maxIn, outDenom, out).value.receipt.offer;
      QueryReverseSimulation(c, pr, env, w, outDenom, out) ==
        if c.swapCheck(Decs(pr, Reserves(pr, w)), ToDec(out, pr.precisions.At(pr.SideOf(outDenom).value)))
        then Some(charged) else None
  {
    UndoDeposit(pr, w, sender, inDenom, maxIn);
  }
}
