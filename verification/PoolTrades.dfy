/** Swap transactions as a whole: each is the settlement of a trade that can be worked out beforehand, with moves of the
    offered coin around it; and what that does to reserves and records. */
module PoolTrades {
  import opened Outcome
  import opened FixedPoint
  import opened Bank
  import opened PoolTypes
  import opened PoolSpec
  import opened PoolSwaps

  /** The pair itself signs no transaction. */
  predicate Outsider(pr: Pair, s: Step) {
    s.action.sender != pr.addr
  }

  predicate KnowsId(pr: Pair, w: World) { w.poolId.Some? ==> w.poolId == Some(pr.dexPoolId) }

  /** Proceeds and fees go to accounts other than the pair. */
  predicate PaysOthers(pr: Pair, s: Step) {
    && s.env.fee.feeAddress != Some(pr.addr)
    && (s.action.SwapViaPair? ==> s.action.to != Some(pr.addr))
  }

  /** A swap transaction seen from the books: moves of the offer asset bring w to m, the payments of a
      settlement bring m to f, and moves of the offer asset bring f to w'. */
  ghost predicate Framed(pr: Pair, w: World, m: World, f: World, w': World, os: Side, offer: nat) {
    && m == w.(ledger := m.ledger) && m.ledger.lpSupply == w.ledger.lpSupply
    && w' == f.(ledger := w'.ledger) && w'.ledger.lpSupply == f.ledger.lpSupply
    && Total(m.ledger.bank, pr.lpDenom) == Total(w.ledger.bank, pr.lpDenom)
    && Total(w'.ledger.bank, pr.lpDenom) == Total(f.ledger.bank, pr.lpDenom)
    && Bal(m.ledger.bank, pr.addr, pr.lpDenom) == Bal(w.ledger.bank, pr.addr, pr.lpDenom)
    && Bal(w'.ledger.bank, pr.addr, pr.lpDenom) == Bal(f.ledger.bank, pr.addr, pr.lpDenom)
    && Reserves(pr, m).At(Other(os)) == Reserves(pr, w).At(Other(os))
    && Reserves(pr, w').At(Other(os)) == Reserves(pr, f).At(Other(os))
    && Reserves(pr, w').At(os) - Reserves(pr, f).At(os) + Reserves(pr, m).At(os) == Reserves(pr, w).At(os) + offer
  }

  predicate IsSwap(a: Action) { a.SwapViaPair? || a.SwapIn? || a.SwapOut? }

  function Payee(a: Action): Addr
    requires IsSwap(a)
  {
    if a.SwapViaPair? then UnwrapOr(a.to, a.sender) else a.sender
  }

  lemma FrameOfMove(pr: Pair, w: World, sender: Addr, os: Side, x: nat)
    requires pr.Valid() && sender != pr.addr && Move(w, sender, pr.addr, pr.denoms.At(os), x).Some?
    ensures
      var m := Move(w, sender, pr.addr, pr.denoms.At(os), x).value;
      forall f :: Framed(pr, w, m, f, f, os, x)
  {
    SendMoves(w.ledger.bank, sender, pr.addr, pr.denoms.At(os), x);
  }

  lemma FrameOfRefund(pr: Pair, w: World, m: World, f: World, sender: Addr, os: Side, maxIn: nat, x: nat)
    requires pr.Valid() && sender != pr.addr && x <= maxIn && Framed(pr, w, m, f, f, os, maxIn)
    requires MoveAny(f, pr.addr, sender, pr.denoms.At(os), maxIn - x).Some?
    ensures Framed(pr, w, m, f, MoveAny(f, pr.addr, sender, pr.denoms.At(os), maxIn - x).value, os, x)
  {
    SendMoves(f.ledger.bank, pr.addr, sender, pr.denoms.At(os), maxIn - x);
  }

  /** A settlement with its payments made. */
  ghost predicate Settled(c: Curve, pr: Pair, env: Env, m: World, r: Duo<nat>, os: Side, offer: nat, receiver: Addr,
                          f: World) {
    FinishSwap(pr, Settle(c, pr, env, m, r, os, offer, receiver)) == Some(f)
  }

  /** What a swap offers of which asset, and what the curve answers. */
  datatype Trade = Trade(side: Side, offer: nat, result: SwapResult)

  /** The trade that a swap action makes, worked out before anything has moved. */
  function TradeOf(c: Curve, pr: Pair, w: World, s: Step): Option<Trade>
    requires IsSwap(s.action)
  {
    var side := pr.SideOf(if s.action.SwapOut? then s.action.inDenom else s.action.offer.denom);
    if side.None? then None else
    var os := side.value;
    var offer := if s.action.SwapOut? then ChargedFor(c, pr, s.env, w, os, s.action.out.amount)
                 else Some(s.action.offer.amount);
    if offer.None? then None else
    var res := c.computeSwap(Decs(pr, Reserves(pr, w)), ToDec(offer.value, pr.precisions.At(os)), Other(os), w.config,
                             s.env.time, s.env.fee.MakerShare());
    if res.None? then None else Some(Trade(os, offer.value, res.value))
  }

  /** Tokens a trade returns, and tokens of it that go to the fee address. */
  function Returned(pr: Pair, t: Trade): nat { ToUint(t.result.dy, pr.precisions.At(Other(t.side))) }

  function Charged(pr: Pair, fee: FeeInfo, t: Trade): nat { FeeCharged(pr, fee, t.result, Other(t.side)) }

  /** What the trade moves of each asset: the offer into the pool, the return out of it. */
  function Flows(pr: Pair, t: Trade): Duo<nat> { Duo(Returned(pr, t), Returned(pr, t)).With(t.side, t.offer) }

  /** Neither side of the trade is too small to be priced. */
  predicate Priceable(c: Curve, pr: Pair, t: Trade) {
    ToDec(t.offer, pr.precisions.At(t.side)) >= c.minTradeSize && t.result.dy >= c.minTradeSize
  }

  /** The precommit that waits after the trade. */
  function Remembered(c: Curve, pr: Pair, t: Trade, pre: Option<Precommit>, now: nat): Option<Precommit> {
    if Priceable(c, pr, t) then Some(Noted(c, pre, Flows(pr, t).x0, Flows(pr, t).x1, now)) else pre
  }

  lemma SwapViaPairFrame(c: Curve, pr: Pair, w: World, s: Step, w': World) returns (m: World, os: Side, offer: nat)
    requires pr.Valid() && Outsider(pr, s) && w.poolId == Some(pr.dexPoolId) && w.swapParams.None?
    requires s.action.SwapViaPair? && Attempt(c, pr, w, s) == Some(w')
    ensures Settled(c, pr, s.env, m, Reserves(pr, w), os, offer, Payee(s.action), w')
    ensures Framed(pr, w, m, w', w', os, offer)
    ensures pr.SideOf(s.action.offer.denom) == Some(os) && offer == s.action.offer.amount
  {
    hide Settle, RunMsgs, DexSwapIn, PairSwap, Send;
    var SwapViaPair(sender, coin, belief, spread, to) := s.action;
    m := DispatchIsSettlement(c, pr, s.env, w, sender, coin.denom, coin.amount, belief, spread, to);
    os, offer := pr.SideOf(coin.denom).value, coin.amount;
    FrameOfMove(pr, w, sender, os, offer);
    FrameAlike(pr, w, Move(w, sender, pr.addr, coin.denom, coin.amount).value, m, w', os, offer);
  }

  lemma FrameAlike(pr: Pair, w: World, m: World, n: World, f: World, os: Side, offer: nat)
    requires pr.Valid() && w.swapParams.None? && Framed(pr, w, m, f, f, os, offer)
    requires SameWorld(n, m.(swapParams := None))
    requires Total(n.ledger.bank, pr.lpDenom) == Total(w.ledger.bank, pr.lpDenom)
    ensures Framed(pr, w, n, f, f, os, offer)
  {
  }

  lemma SwapInFrame(c: Curve, pr: Pair, w: World, s: Step, w': World) returns (m: World, os: Side, offer: nat)
    requires pr.Valid() && Outsider(pr, s) && w.swapParams.None?
    requires s.action.SwapIn? && Attempt(c, pr, w, s) == Some(w')
    ensures Settled(c, pr, s.env, m, Reserves(pr, w), os, offer, Payee(s.action), w')
    ensures Framed(pr, w, m, w', w', os, offer)
    ensures pr.SideOf(s.action.offer.denom) == Some(os) && offer == s.action.offer.amount
  {
    hide Settle, RunMsgs, InternalSwap, SudoSwapIn, Send;
    var SwapIn(sender, coin, minOut) := s.action;
    DirectSwapIsSettlement(c, pr, s.env, w, sender, coin.denom, coin.amount, minOut);
    m := Move(w, sender, pr.addr, coin.denom, coin.amount).value;
    os, offer := pr.SideOf(coin.denom).value, coin.amount;
    FrameOfMove(pr, w, sender, os, offer);
  }

  lemma SwapOutFrame(c: Curve, pr: Pair, env: Env, w: World, sender: Addr, inDenom: Denom, maxIn: nat, out: Coin,
                     w': World)
    returns (m: World, f: World, os: Side, offer: nat)
    requires pr.Valid() && sender != pr.addr
    requires DexSwapOut(c, pr, env, w, sender, inDenom, maxIn, out.denom, out.amount) == Some(w')
    ensures Settled(c, pr, env, m, Reserves(pr, w), os, offer, sender, f)
    ensures Framed(pr, w, m, f, w', os, offer)
    ensures pr.SideOf(inDenom) == Some(os) && ChargedFor(c, pr, env, w, os, out.amount) == Some(offer)
  {
    hide Settle, RunMsgs, SwapExactOut, Send, ChargedFor;
    ExactOutIsSettlement(c, pr, env, w, sender, inDenom, maxIn, out.denom, out.amount);
    m := Move(w, sender, pr.addr, inDenom, maxIn).value;
    var t := SwapExactOut(c, pr, env, m, sender, inDenom, maxIn, out.denom, out.amount);
    os, offer, f := pr.SideOf(inDenom).value, t.value.receipt.offer, FinishSwap(pr, t).value;
    FrameOfMove(pr, w, sender, os, maxIn);
    FrameOfRefund(pr, w, m, f, sender, os, maxIn, offer);
  }

  /** A settlement goes through only if the curve answers the trade. */
  lemma SettledIsAnswered(c: Curve, pr: Pair, env: Env, w: World, m: World, r: Duo<nat>, os: Side, offer: nat,
                          receiver: Addr, f: World)
    requires m.config == w.config && Settled(c, pr, env, m, r, os, offer, receiver, f)
    ensures c.computeSwap(Decs(pr, r), ToDec(offer, pr.precisions.At(os)), Other(os), w.config, env.time,
                          env.fee.MakerShare()).Some?
  {
  }

  /** Every swap transaction is one settlement, of the trade worked out beforehand, in such a frame. */
  lemma SwapFrame(c: Curve, pr: Pair, w: World, s: Step, w': World) returns (m: World, f: World, t: Trade)
    requires pr.Valid() && Outsider(pr, s) && KnowsId(pr, w) && w.swapParams.None?
    requires IsSwap(s.action) && Attempt(c, pr, w, s) == Some(w')
    ensures TradeOf(c, pr, w, s) == Some(t)
    ensures Settled(c, pr, s.env, m, Reserves(pr, w), t.side, t.offer, Payee(s.action), f)
    ensures Framed(pr, w, m, f, w', t.side, t.offer)
  {
    var os: Side, offer;
    if s.action.SwapViaPair? {
      m, os, offer := SwapViaPairFrame(c, pr, w, s, w');
      f := w';
    } else if s.action.SwapIn? {
      m, os, offer := SwapInFrame(c, pr, w, s, w');
      f := w';
    } else {
      m, f, os, offer := SwapOutFrame(c, pr, s.env, w, s.action.sender, s.action.inDenom, s.action.maxIn, s.action.out,
                                      w');
    }
    hide Settled, ChargedFor, Decs, ToDec, Attempt;
    SettledIsAnswered(c, pr, s.env, w, m, Reserves(pr, w), os, offer, Payee(s.action), f);
    t := TradeOf(c, pr, w, s).value;
  }

  // ----- What a swap transaction does -----

  /** What comes back to the pair itself from a trade. */
  function PaidToSelf(pr: Pair, s: Step, t: Trade): nat
    requires IsSwap(s.action)
  {
    (if Payee(s.action) == pr.addr then Returned(pr, t) else 0)
    + if s.env.fee.feeAddress == Some(pr.addr) then Charged(pr, s.env.fee, t) else 0
  }

  /** The storage a settlement leaves, in terms of the trade. */
  lemma SettledStorage(c: Curve, pr: Pair, env: Env, m: World, r: Duo<nat>, t: Trade, receiver: Addr, f: World)
    requires pr.Valid() && Settled(c, pr, env, m, r, t.side, t.offer, receiver, f)
    requires Some(t.result) == c.computeSwap(Decs(pr, r), ToDec(t.offer, pr.precisions.At(t.side)), Other(t.side),
                                             m.config,
                                             env.time, env.fee.MakerShare())
    ensures
      var ai, receipt := Other(t.side), Settle(c, pr, env, m, r, t.side, t.offer, receiver).value.receipt;
      && receipt.returned == Returned(pr, t) && receipt.makerFee == Charged(pr, env.fee, t)
      && t.result.dy + t.result.makerFee <= Decs(pr, r).At(ai) && Returned(pr, t) + Charged(pr, env.fee, t) <= r.At(ai)
      && f.config.trackBalances == m.config.trackBalances
      && f.balances == (if m.config.trackBalances
           then m.balances[pr.denoms.At(t.side) := r.At(t.side) + t.offer]
                          [pr.denoms.At(ai) := r.At(ai) - Returned(pr, t) - Charged(pr, env.fee, t)]
           else m.balances)
      && f.precommit == Remembered(c, pr, t, m.precommit, env.time)
  {
    hide Accumulate, Payouts, ToUint, RunMsgs, Mul;
    PayoutFits(pr, env.fee, t.result, Other(t.side), r.At(Other(t.side)));
  }

  /** What a swap transaction moves into and out of the pool, and what it writes down: all of it follows from the
      trade. */
  lemma SwapEffect(c: Curve, pr: Pair, w: World, s: Step, w': World)
    requires pr.Valid() && Outsider(pr, s) && KnowsId(pr, w) && w.swapParams.None?
    requires IsSwap(s.action) && Attempt(c, pr, w, s) == Some(w')
    ensures TradeOf(c, pr, w, s).Some?
    ensures
      var t := TradeOf(c, pr, w, s).value;
      var os, ai, held := t.side, Other(t.side), Reserves(pr, w);
      var out := Returned(pr, t) + Charged(pr, s.env.fee, t);
      && Returned(pr, t) > 0 && out <= held.At(ai) && t.result.dy + t.result.makerFee <= Decs(pr, held).At(ai)
      && Reserves(pr, w').At(os) == held.At(os) + t.offer
      && Reserves(pr, w').At(ai) == held.At(ai) - out + PaidToSelf(pr, s, t)
      && w'.config.trackBalances == w.config.trackBalances
      && w'.balances == (if w.config.trackBalances
           then w.balances[pr.denoms.At(os) := held.At(os) + t.offer][pr.denoms.At(ai) := held.At(ai) - out]
           else w.balances)
      && w'.precommit == Remembered(c, pr, t, w.precommit, s.env.time)
  {
    hide Attempt, RunMsgs, Settle, Returned, FeeCharged, Decs, ToDec;
    var m, f, t := SwapFrame(c, pr, w, s, w');
    SettledPayments(c, pr, s.env, m, Reserves(pr, w), t.side, t.offer, Payee(s.action), pr.lpDenom);
    SettledStorage(c, pr, s.env, m, Reserves(pr, w), t, Payee(s.action), f);
  }

  // ----- Rounding -----

  lemma PayoutTruncation(dy: Dec, fee: Dec, charged: nat, r: nat, p: Precision)
    requires dy + fee <= ToDec(r, p) && charged <= ToUint(fee, p) && ToUint(dy, p) + charged <= r
    ensures ToDec(r, p) - (dy + fee) <= ToDec(r - ToUint(dy, p) - charged, p)
    ensures charged == ToUint(fee, p) || fee == 0 ==>
      ToDec(r - ToUint(dy, p) - charged, p) < ToDec(r, p) - (dy + fee) + 2 * Unit(p)
  {
    var returned := ToUint(dy, p);
    Truncation(dy, p);
    Truncation(fee, p);
    MulMono(charged, ToUint(fee, p), Unit(p));
    ToDecAdd(r - returned - charged, returned, p);
    ToDecAdd(r - charged, charged, p);
  }

  /** Truncation favours the pool in every swap transaction whose payees are others: the offered reserve becomes exactly
      the one the curve worked with; the asked one is never below it and, if a fee is paid out when there is one, above
      it by less than two smallest units. */
  lemma TruncationFavoursPool(c: Curve, pr: Pair, w: World, s: Step, w': World)
    requires pr.Valid() && Outsider(pr, s) && PaysOthers(pr, s) && KnowsId(pr, w) && w.swapParams.None?
    requires IsSwap(s.action) && Attempt(c, pr, w, s) == Some(w')
    ensures TradeOf(c, pr, w, s).Some?
    ensures
      var t := TradeOf(c, pr, w, s).value;
      var ai, p := Other(t.side), pr.precisions.At(Other(t.side));
      var after := AfterTrade(Decs(pr, Reserves(pr, w)), t.result, ToDec(t.offer, pr.precisions.At(t.side)), t.side);
      && after.Some?
      && Decs(pr, Reserves(pr, w')).At(t.side) == after.value.At(t.side)
      && after.value.At(ai) <= Decs(pr, Reserves(pr, w')).At(ai)
      && (s.env.fee.feeAddress.Some? || t.result.makerFee == 0 ==>
            Decs(pr, Reserves(pr, w')).At(ai) < after.value.At(ai) + 2 * Unit(p))
  {
    hide Attempt, Reserves, TradeOf, ToUint, ToDec;
    SwapEffect(c, pr, w, s, w');
    var t := TradeOf(c, pr, w, s).value;
    var held, p := Reserves(pr, w), pr.precisions.At(Other(t.side));
    assert PaidToSelf(pr, s, t) == 0;
    ToDecAdd(held.At(t.side), t.offer, pr.precisions.At(t.side));
    PayoutTruncation(t.result.dy, t.result.makerFee, Charged(pr, s.env.fee, t), held.At(Other(t.side)), p);
  }
}
