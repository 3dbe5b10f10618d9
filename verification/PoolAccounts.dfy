/** What each transaction of the pair does to every account on chain. */
module PoolAccounts {
  import opened Outcome
  import opened FixedPoint
  import opened Bank
  import opened PoolTypes
  import opened PoolSpec
  import opened PoolMessages
  import opened PoolSwaps
  import opened PoolTrades
  import opened PoolLiquidity

  // ----- Swaps -----

  /** The offer goes from the sender to the pair; the return and the fee go from the pair to their payees; no other
      account and no other coin is touched. */
  ghost predicate Traded(pair: Addr, b: Book, b': Book, sender: Addr, payee: Addr, fee: Option<Addr>,
                         offered: Denom, offer: nat, asked: Denom, returned: nat, charged: nat) {
    forall a, d :: (
      Bal(b', a, d) == Bal(b, a, d)
      + (if d == offered then (if a == pair then offer else 0) - (if a == sender then offer else 0) else 0)
      + (if d == asked then (if a == payee then returned else 0) + (if fee == Some(a) then charged else 0)
                            - (if a == pair then returned + charged else 0)
         else 0))
  }

  lemma TradedInTwo(pr: Pair, b: Book, m: Book, b': Book, sender: Addr, payee: Addr, fee: Option<Addr>, os: Side,
                    offer: nat, returned: nat, charged: nat)
    requires Moved(b, m, sender, pr.addr, pr.denoms.At(os), offer)
    requires Paid(pr, m, b', pr.denoms.At(Other(os)), payee, returned, fee, charged)
    ensures Traded(pr.addr, b, b', sender, payee, fee, pr.denoms.At(os), offer, pr.denoms.At(Other(os)), returned,
                   charged)
  {
  }

  lemma TradedInThree(pr: Pair, b: Book, m: Book, f: Book, b': Book, sender: Addr, payee: Addr, fee: Option<Addr>,
                      os: Side,
                      maxIn: nat, offer: nat, returned: nat, charged: nat)
    requires offer <= maxIn && Moved(b, m, sender, pr.addr, pr.denoms.At(os), maxIn)
    requires Paid(pr, m, f, pr.denoms.At(Other(os)), payee, returned, fee, charged)
    requires Moved(f, b', pr.addr, sender, pr.denoms.At(os), maxIn - offer)
    ensures Traded(pr.addr, b, b', sender, payee, fee, pr.denoms.At(os), offer, pr.denoms.At(Other(os)), returned,
                   charged)
  {
  }

  /** The books of a settled trade. */
  lemma SettledBooks(c: Curve, pr: Pair, w: World, s: Step, m: World, receiver: Addr)
    requires pr.Valid() && IsSwap(s.action) && TradeOf(c, pr, w, s).Some? && m.config == w.config
    requires
      var t := TradeOf(c, pr, w, s).value;
      FinishSwap(pr, Settle(c, pr, s.env, m, Reserves(pr, w), t.side, t.offer, receiver)).Some?
    ensures
      var t := TradeOf(c, pr, w, s).value;
      var f := FinishSwap(pr, Settle(c, pr, s.env, m, Reserves(pr, w), t.side, t.offer, receiver)).value;
      Paid(pr, m.ledger.bank, f.ledger.bank, pr.denoms.At(Other(t.side)), receiver, Returned(pr, t),
           s.env.fee.feeAddress,
           Charged(pr, s.env.fee, t))
  {
    hide RunMsgs, Settle, Decs, ToDec, Returned, FeeCharged;
    var t := TradeOf(c, pr, w, s).value;
    var f := FinishSwap(pr, Settle(c, pr, s.env, m, Reserves(pr, w), t.side, t.offer, receiver)).value;
    SettledPayments(c, pr, s.env, m, Reserves(pr, w), t.side, t.offer, receiver, pr.lpDenom);
    SettledStorage(c, pr, s.env, m, Reserves(pr, w), t, receiver, f);
  }

  /** Any swap transaction, whoever is paid. */
  lemma SwapMovesCoins(c: Curve, pr: Pair, w: World, s: Step, w': World)
    requires pr.Valid() && Outsider(pr, s) && KnowsId(pr, w) && w.swapParams.None?
    requires IsSwap(s.action) && Attempt(c, pr, w, s) == Some(w')
    ensures TradeOf(c, pr, w, s).Some? && w'.ledger.lpSupply == w.ledger.lpSupply
    ensures
      var t := TradeOf(c, pr, w, s).value;
      var payee := if s.action.SwapViaPair? then UnwrapOr(s.action.to, s.action.sender) else s.action.sender;
      Traded(pr.addr, w.ledger.bank, w'.ledger.bank, s.action.sender, payee, s.env.fee.feeAddress,
             pr.denoms.At(t.side), t.offer, pr.denoms.At(1 - t.side),
             FloorDiv(t.result.dy, Unit(pr.precisions.At(1 - t.side))),
             if s.env.fee.feeAddress.Some? then FloorDiv(t.result.makerFee, Unit(pr.precisions.At(1 - t.side))) else 0)
  {
    hide Attempt, RunMsgs, Settle, TradeOf, Traded, Decs, ToDec, Total, Reserves, Unit;
    var m, f, t := SwapFrame(c, pr, w, s, w');
    match s.action
    case SwapIn(_, _, _) => SwapInBooks(c, pr, w, s, w');
    case SwapViaPair(_, _, _, _, _) => SwapViaPairBooks(c, pr, w, s, w');
    case SwapOut(_, _, _, _) => SwapOutBooks(c, pr, w, s, w');
  }

  ghost predicate SwapBooks(c: Curve, pr: Pair, w: World, s: Step, w': World)
    requires IsSwap(s.action) && TradeOf(c, pr, w, s).Some?
  {
    var t := TradeOf(c, pr, w, s).value;
    Traded(pr.addr, w.ledger.bank, w'.ledger.bank, s.action.sender, Payee(s.action), s.env.fee.feeAddress,
           pr.denoms.At(t.side), t.offer, pr.denoms.At(Other(t.side)), Returned(pr, t), Charged(pr, s.env.fee, t))
  }

  lemma SwapInBooks(c: Curve, pr: Pair, w: World, s: Step, w': World)
    requires pr.Valid() && Outsider(pr, s) && w.swapParams.None?
    requires s.action.SwapIn? && Attempt(c, pr, w, s) == Some(w') && TradeOf(c, pr, w, s).Some?
    ensures SwapBooks(c, pr, w, s, w') && w'.ledger.lpSupply == w.ledger.lpSupply
  {
    hide Settle, RunMsgs, InternalSwap, SudoSwapIn, Send, Returned, FeeCharged, Decs, ToDec, Traded, Moved, Paid, Total;
    var SwapIn(sender, coin, minOut) := s.action;
    DirectSwapIsSettlement(c, pr, s.env, w, sender, coin.denom, coin.amount, minOut);
    var t := TradeOf(c, pr, w, s).value;
    var m := Move(w, sender, pr.addr, coin.denom, coin.amount).value;
    SendMoves(w.ledger.bank, sender, pr.addr, coin.denom, coin.amount);
    SettledBooks(c, pr, w, s, m, sender);
    SettledPayments(c, pr, s.env, m, Reserves(pr, w), t.side, t.offer, sender, pr.lpDenom);
    TradedInTwo(pr, w.ledger.bank, m.ledger.bank, w'.ledger.bank, sender, sender, s.env.fee.feeAddress, t.side, t.offer,
                Returned(pr, t), Charged(pr, s.env.fee, t));
  }

  lemma SwapViaPairBooks(c: Curve, pr: Pair, w: World, s: Step, w': World)
    requires pr.Valid() && Outsider(pr, s) && KnowsId(pr, w) && w.swapParams.None?
    requires s.action.SwapViaPair? && Attempt(c, pr, w, s) == Some(w') && TradeOf(c, pr, w, s).Some?
    ensures SwapBooks(c, pr, w, s, w') && w'.ledger.lpSupply == w.ledger.lpSupply
  {
    hide Settle, RunMsgs, DexSwapIn, Send, Returned, FeeCharged, Decs, ToDec, Traded, Moved, Paid, Total;
    var SwapViaPair(sender, coin, belief, spread, to) := s.action;
    assert w.poolId == Some(pr.dexPoolId);
    var n := DispatchIsSettlement(c, pr, s.env, w, sender, coin.denom, coin.amount, belief, spread, to);
    var t := TradeOf(c, pr, w, s).value;
    var m := Move(w, sender, pr.addr, coin.denom, coin.amount).value;
    SendMoves(w.ledger.bank, sender, pr.addr, coin.denom, coin.amount);
    SettledBooks(c, pr, w, s, n, Payee(s.action));
    SettledPayments(c, pr, s.env, n, Reserves(pr, w), t.side, t.offer, Payee(s.action), pr.lpDenom);
    MovedAlike(w.ledger.bank, m.ledger.bank, n.ledger.bank, sender, pr.addr, coin.denom, coin.amount);
    TradedInTwo(pr, w.ledger.bank, n.ledger.bank, w'.ledger.bank, sender, Payee(s.action), s.env.fee.feeAddress, t.side,
                t.offer, Returned(pr, t), Charged(pr, s.env.fee, t));
  }

  lemma MovedAlike(b: Book, m: Book, n: Book, from: Addr, to: Addr, d: Denom, x: nat)
    requires Moved(b, m, from, to, d, x) && forall a, e :: Bal(n, a, e) == Bal(m, a, e)
    ensures Moved(b, n, from, to, d, x)
  {
  }

  lemma SwapOutBooks(c: Curve, pr: Pair, w: World, s: Step, w': World)
    requires pr.Valid() && Outsider(pr, s)
    requires s.action.SwapOut? && Attempt(c, pr, w, s) == Some(w') && TradeOf(c, pr, w, s).Some?
    ensures SwapBooks(c, pr, w, s, w') && w'.ledger.lpSupply == w.ledger.lpSupply
  {
    hide Settle, RunMsgs, SwapExactOut, ChargedFor, Send, Returned, FeeCharged, Decs, ToDec, Traded, Paid, Total;
    var SwapOut(sender, inDenom, maxIn, out) := s.action;
    ExactOutIsSettlement(c, pr, s.env, w, sender, inDenom, maxIn, out.denom, out.amount);
    var t := TradeOf(c, pr, w, s).value;
    var m := Move(w, sender, pr.addr, inDenom, maxIn).value;
    var f := FinishSwap(pr, Settle(c, pr, s.env, m, Reserves(pr, w), t.side, t.offer, sender)).value;
    SendMoves(w.ledger.bank, sender, pr.addr, inDenom, maxIn);
    SettledBooks(c, pr, w, s, m, sender);
    SettledPayments(c, pr, s.env, m, Reserves(pr, w), t.side, t.offer, sender, pr.lpDenom);
    SendMoves(f.ledger.bank, pr.addr, sender, inDenom, maxIn - t.offer);
    TradedInThree(pr, w.ledger.bank, m.ledger.bank, f.ledger.bank, w'.ledger.bank, sender, sender, s.env.fee.feeAddress,
                  t.side, maxIn, t.offer, Returned(pr, t), Charged(pr, s.env.fee, t));
  }

  // ----- Provide and withdraw -----

  /** The deposits go from the sender to the pair, the minted LP units to the receiver, and the locked ones to the
      pair. */
  ghost predicate Provided(pr: Pair, b: Book, b': Book, sender: Addr, receiver: Addr, dep: Duo<nat>, minted: nat,
                           locked: nat)
  {
    forall a, d :: (
      Bal(b', a, d) == Bal(b, a, d)
      + (if d == pr.denoms.x0 then (if a == pr.addr then dep.x0 else 0) - (if a == sender then dep.x0 else 0) else 0)
      + (if d == pr.denoms.x1 then (if a == pr.addr then dep.x1 else 0) - (if a == sender then dep.x1 else 0) else 0)
      + (if d == pr.lpDenom then (if a == receiver then minted else 0) + (if a == pr.addr then locked else 0) else 0))
  }

  lemma DepositBooks(pr: Pair, w: World, sender: Addr, dep: Duo<nat>)
    requires pr.Valid() && sender != pr.addr && Deposited(pr, w, sender, dep).Some?
    ensures
      var m0 := MoveAny(w, sender, pr.addr, pr.denoms.x0, dep.x0);
      && m0.Some?
      && Moved(w.ledger.bank, m0.value.ledger.bank, sender, pr.addr, pr.denoms.x0, dep.x0)
      && Moved(m0.value.ledger.bank, Deposited(pr, w, sender, dep).value.ledger.bank, sender, pr.addr, pr.denoms.x1,
               dep.x1)
  {
    var m0 := MoveAny(w, sender, pr.addr, pr.denoms.x0, dep.x0).value;
    SendMoves(w.ledger.bank, sender, pr.addr, pr.denoms.x0, dep.x0);
    SendMoves(m0.ledger.bank, sender, pr.addr, pr.denoms.x1, dep.x1);
  }

  ghost predicate Credited(b: Book, b': Book, lp: Denom, pair: Addr, locked: nat, to: Addr, n: nat) {
    forall a, d :: (Bal(b', a, d) == Bal(b, a, d) +
      if d == lp then (if a == to then n else 0) + (if a == pair then locked else 0) else 0)
  }

  lemma MintBooks(pr: Pair, g: Ledger, locked: nat, to: Addr, n: nat)
    requires pr.Valid() && RunMsgs(pr.addr, g, Mints(pr, locked, to, n)).Some?
    ensures
      Credited(g.bank, RunMsgs(pr.addr, g, Mints(pr, locked, to, n)).value.bank, pr.lpDenom, pr.addr, locked, to, n)
  {
    var ms, last := Mints(pr, locked, to, n), Mint(to, Coin(pr.lpDenom, n));
    if locked > 0 {
      var g1 := RunMsg(pr.addr, g, ms[0]).value;
      assert ms[1..] == [last] && [last][1..] == [];
      assert RunMsgs(pr.addr, g1, [last]) == RunMsg(pr.addr, g1, last);
    } else {
      assert ms[1..] == [];
    }
  }

  lemma ProvidedInThree(pr: Pair, b: Book, m0: Book, m: Book, b': Book, sender: Addr, receiver: Addr, dep: Duo<nat>,
                        minted: nat, locked: nat)
    requires Moved(b, m0, sender, pr.addr, pr.denoms.x0, dep.x0) && Moved(m0, m, sender, pr.addr, pr.denoms.x1, dep.x1)
    requires Credited(m, b', pr.lpDenom, pr.addr, locked, receiver, minted)
    ensures Provided(pr, b, b', sender, receiver, dep, minted, locked)
  {
  }

  /** Any provide transaction: what the list names leaves the sender, the truncated share reaches the receiver, or the
      sender if none is named, and the minimum is locked with the pair the first time. */
  lemma ProvideMovesCoins(c: Curve, pr: Pair, env: Env, w: World, sender: Addr, assets: seq<Coin>,
                          tolerance: Option<Dec>,
                          receiver: Option<Addr>, w': World)
    requires pr.Valid() && sender != pr.addr
    requires ProvideTx(c, pr, env, w, sender, assets, tolerance, receiver) == Some(w')
    ensures Deposits(pr, assets).Some? && ShareFor(c, pr, env, w, Deposits(pr, assets).value).Some?
    ensures
      var dep := Deposits(pr, assets).value;
      var minted := FloorDiv(ShareFor(c, pr, env, w, dep).value, Unit(6));
      var locked := if w.ledger.lpSupply == 0 then c.minLiquidity else 0;
      && Provided(pr, w.ledger.bank, w'.ledger.bank, sender, if receiver.Some? then receiver.value else sender, dep,
                  minted, locked)
      && w'.ledger.lpSupply == w.ledger.lpSupply + minted + locked
  {
    hide ProvideLiquidity, ShareOf, RunMsgs, Send, Mints, Moved, Credited, Provided, Total, Bal, Unit;
    ProvideEffect(c, pr, env, w, sender, assets, tolerance, receiver, w');
    var dep := Deposits(pr, assets).value;
    var m := Deposited(pr, w, sender, dep).value;
    var to := UnwrapOr(receiver, sender);
    var minted, locked := Minted(c, pr, env, w, dep).value, Locked(c, w.ledger.lpSupply);
    DepositMoves(pr, w, sender, dep);
    DepositBooks(pr, w, sender, dep);
    HandlerMints(c, pr, env, m, sender, dep, tolerance, receiver, w);
    MintBooks(pr, m.ledger, locked, to, minted);
    var m0 := MoveAny(w, sender, pr.addr, pr.denoms.x0, dep.x0).value;
    ProvidedInThree(pr, w.ledger.bank, m0.ledger.bank, m.ledger.bank, w'.ledger.bank, sender, to, dep, minted, locked);
  }

  /** The refunds go from the pair to the sender, whose LP units are gone. */
  ghost predicate Withdrawn(pr: Pair, b: Book, b': Book, sender: Addr, refund: Duo<nat>, amount: nat) {
    forall a, d :: (
      Bal(b', a, d) == Bal(b, a, d)
      + (if d != pr.denoms.x0 then 0
         else (if a == sender then refund.x0 else 0) - (if a == pr.addr then refund.x0 else 0))
      + (if d != pr.denoms.x1 then 0
         else (if a == sender then refund.x1 else 0) - (if a == pr.addr then refund.x1 else 0))
      - (if d == pr.lpDenom && a == sender then amount else 0))
  }

  lemma RefundRun(pr: Pair, g: Ledger, sender: Addr, refund: Duo<nat>, amount: nat)
    requires RunMsgs(pr.addr, g, RefundMessages(pr, sender, refund, amount)).Some?
    ensures
      var pays := [Pay(sender, Coin(pr.denoms.x0, refund.x0)), Pay(sender, Coin(pr.denoms.x1, refund.x1))];
      && RunMsgs(pr.addr, g, pays).Some? && PayRelation(pr.addr, g.bank, pays, RunMsgs(pr.addr, g, pays).value.bank)
      && var g2 := RunMsgs(pr.addr, g, pays).value;
         && amount <= Bal(g2.bank, pr.addr, pr.lpDenom)
         && RunMsgs(pr.addr, g, RefundMessages(pr, sender, refund, amount)).value.bank
            == Debit(g2.bank, pr.addr, pr.lpDenom, amount)
  {
    hide PayRelation;
    var pays := [Pay(sender, Coin(pr.denoms.x0, refund.x0)), Pay(sender, Coin(pr.denoms.x1, refund.x1))];
    var burn := Burn(pr.addr, Coin(pr.lpDenom, amount));
    assert pays + [burn] == RefundMessages(pr, sender, refund, amount);
    RunConcat(pr.addr, g, pays, [burn]);
    PayEffect(pr.addr, g, pays, pr.lpDenom);
    var g2 := RunMsgs(pr.addr, g, pays).value;
    assert RunMsgs(pr.addr, g2, [burn]) == RunMsg(pr.addr, g2, burn);
  }

  lemma RefundBooks(pr: Pair, g: Ledger, sender: Addr, refund: Duo<nat>, amount: nat, b: Book)
    requires pr.Valid() && RunMsgs(pr.addr, g, RefundMessages(pr, sender, refund, amount)).Some?
    requires Moved(b, g.bank, sender, pr.addr, pr.lpDenom, amount)
    ensures
      var after := RunMsgs(pr.addr, g, RefundMessages(pr, sender, refund, amount)).value.bank;
      Withdrawn(pr, b, after, sender, refund, amount)
  {
    hide RunMsgs, PaidOut, PaidTo;
    RefundRun(pr, g, sender, refund, amount);
    TwoPays(Pay(sender, Coin(pr.denoms.x0, refund.x0)), Pay(sender, Coin(pr.denoms.x1, refund.x1)));
  }

  /** Any withdraw transaction. */
  lemma WithdrawMovesCoins(c: Curve, pr: Pair, env: Env, w: World, sender: Addr, funds: seq<Coin>, assets: seq<Coin>,
                           w': World)
    requires pr.Valid() && sender != pr.addr
    requires WithdrawTx(c, pr, env, w, sender, funds, assets) == Some(w')
    ensures |funds| == 1 && funds[0].denom == pr.lpDenom && assets == []
    ensures Withdrawn(pr, w.ledger.bank, w'.ledger.bank, sender, QueryShare(pr, w, funds[0].amount), funds[0].amount)
    ensures w'.ledger.lpSupply == w.ledger.lpSupply - funds[0].amount
  {
    hide RunMsgs, Refund, ShareInAsset, Decs, Send, Withdrawn, Moved, Total;
    var amount := funds[0].amount;
    WithdrawEffect(c, pr, env, w, sender, funds, assets, w');
    var m := Move(w, sender, pr.addr, pr.lpDenom, amount).value;
    SendMoves(w.ledger.bank, sender, pr.addr, pr.lpDenom, amount);
    LpMoveKeepsReserves(pr, w, m, sender, amount);
    RefundBooks(pr, m.ledger, sender, QueryShare(pr, w, amount), amount, w.ledger.bank);
  }

  lemma LpMoveKeepsReserves(pr: Pair, w: World, m: World, sender: Addr, amount: nat)
    requires pr.Valid() && Moved(w.ledger.bank, m.ledger.bank, sender, pr.addr, pr.lpDenom, amount)
    ensures Reserves(pr, m) == Reserves(pr, w)
  {
  }
}
