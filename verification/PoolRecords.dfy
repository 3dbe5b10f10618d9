/** The pair's own record of its balances, against the bank. */
module PoolRecords {
  import opened Outcome
  import opened FixedPoint
  import opened Bank
  import opened PoolTypes
  import opened PoolSpec
  import opened PoolSwaps
  import opened PoolTrades
  import opened PoolLiquidity
  import opened PoolRuns

  /** With tracking on, each reserve exceeds its recorded balance by the given amount. */
  predicate Recorded(pr: Pair, w: World, extra: Duo<nat>) {
    w.config.trackBalances ==>
      && pr.denoms.x0 in w.balances && pr.denoms.x1 in w.balances
      && Reserves(pr, w).x0 == w.balances[pr.denoms.x0] + extra.x0
      && Reserves(pr, w).x1 == w.balances[pr.denoms.x1] + extra.x1
  }

  /** After any swap with tracking on, the record of the offered asset is exact, and that of the asked asset falls short
      of the bank by exactly what the trade pays to the pair itself. So the records are right if and only if the payee
      is another account and no fee worked out beforehand goes to the pair's own address. */
  lemma SwapRecordsExactly(c: Curve, pr: Pair, w: World, s: Step, w': World)
    requires pr.Valid() && Outsider(pr, s) && KnowsId(pr, w) && w.swapParams.None?
    requires IsSwap(s.action) && Attempt(c, pr, w, s) == Some(w')
    ensures TradeOf(c, pr, w, s).Some? && w'.config.trackBalances == w.config.trackBalances
    ensures
      var t := TradeOf(c, pr, w, s).value;
      && Recorded(pr, w', Duo(0, 0).With(Other(t.side), PaidToSelf(pr, s, t)))
      && (w.config.trackBalances ==>
           (Recorded(pr, w', Duo(0, 0)) <==>
             Payee(s.action) != pr.addr && (s.env.fee.feeAddress != Some(pr.addr) || Charged(pr, s.env.fee, t) == 0)))
  {
    hide Attempt, TradeOf, Returned, FeeCharged, Decs, ToDec;
    SwapEffect(c, pr, w, s, w');
  }

  /** Coins sent to the pair from outside since it last wrote its records, per asset. */
  function Unrecorded(c: Curve, pr: Pair, w: World, steps: seq<Step>, start: Duo<nat>): Duo<nat>
    decreases |steps|
  {
    if steps == [] then start else
    var n := |steps| - 1;
    var before, extra := Run(c, pr, w, steps[..n]), Unrecorded(c, pr, w, steps[..n], start);
    if Attempt(c, pr, before, steps[n]).None? then extra else
    match steps[n].action
    case Transfer(_, payee, coin) =>
      if payee != pr.addr then extra
      else Duo(extra.x0 + (if coin.denom == pr.denoms.x0 then coin.amount else 0),
               extra.x1 + (if coin.denom == pr.denoms.x1 then coin.amount else 0))
    case SetId(_, _) => extra
    case Tune(_, _, _) => extra
    case _ => Duo(0, 0)
  }

  lemma DonationRecorded(pr: Pair, w: World, from: Addr, to: Addr, coin: Coin, extra: Duo<nat>, w': World)
    requires pr.Valid() && from != pr.addr && Recorded(pr, w, extra)
    requires Move(w, from, to, coin.denom, coin.amount) == Some(w')
    ensures Recorded(pr, w', if to != pr.addr then extra else
              Duo(extra.x0 + (if coin.denom == pr.denoms.x0 then coin.amount else 0),
                  extra.x1 + (if coin.denom == pr.denoms.x1 then coin.amount else 0)))
  {
    hide Send;
    SendMoves(w.ledger.bank, from, to, coin.denom, coin.amount);
  }

  lemma TrackedIsRecorded(pr: Pair, w: World, w': World)
    requires pr.Valid() && w'.config.trackBalances == w.config.trackBalances
    requires w'.balances == Tracked(pr, w, Reserves(pr, w'))
    ensures Recorded(pr, w', Duo(0, 0))
  {
  }

  /** One transaction, whatever it is: afterwards the records differ from the bank by exactly the donations
      received since the records were last written. */
  lemma StepIsRecorded(c: Curve, pr: Pair, w: World, s: Step, extra: Duo<nat>, w': World)
    requires pr.Valid() && Outsider(pr, s) && PaysOthers(pr, s) && KnowsId(pr, w) && w.swapParams.None?
    requires Recorded(pr, w, extra) && Attempt(c, pr, w, s) == Some(w')
    ensures
      match s.action
      case Transfer(_, payee, coin) =>
        Recorded(pr, w', if payee != pr.addr then extra
                         else Duo(extra.x0 + (if coin.denom == pr.denoms.x0 then coin.amount else 0),
                                  extra.x1 + (if coin.denom == pr.denoms.x1 then coin.amount else 0)))
      case SetId(_, _) => Recorded(pr, w', extra)
      case Tune(_, params, state) => Recorded(pr, w', extra)
      case _ => Recorded(pr, w', Duo(0, 0))
  {
    hide RunMsgs, Settle, ProvideTx, WithdrawTx, DexSwapIn, DexSwapOut, PairSwap, Minted, Refund, Send;
    match s.action
    case Provide(sender, assets, tolerance, receiver) =>
      ProvideEffect(c, pr, s.env, w, sender, assets, tolerance, receiver, w');
      TrackedIsRecorded(pr, w, w');
    case Withdraw(sender, funds, wanted) =>
      WithdrawEffect(c, pr, s.env, w, sender, funds, wanted, w');
      TrackedIsRecorded(pr, w, w');
    case SwapViaPair(_, _, _, _, _) => SwapRecordsExactly(c, pr, w, s, w');
    case SwapIn(_, _, _) => SwapRecordsExactly(c, pr, w, s, w');
    case SwapOut(_, _, _, _) => SwapRecordsExactly(c, pr, w, s, w');
    case SetId(_, _) =>
    case Track(_) =>
    case Tune(_, _, _) =>
    case Transfer(sender, payee, coin) => DonationRecorded(pr, w, sender, payee, coin, extra, w');
  }

  predicate Honest(pr: Pair, steps: seq<Step>) {
    Ordinary(pr, steps) && forall i :: 0 <= i < |steps| ==> PaysOthers(pr, steps[i])
  }

  /** Over every run: while tracking is on, bank balance = recorded balance + donations since the last record.
      In particular the two agree right after every provide, withdraw, swap and enabling step. */
  lemma {:induction false} RecordsFollowTheBank(c: Curve, pr: Pair, w: World, steps: seq<Step>, start: Duo<nat>)
    requires pr.Valid() && Honest(pr, steps) && Sound(c, pr, w) && Recorded(pr, w, start)
    ensures Recorded(pr, Run(c, pr, w, steps), Unrecorded(c, pr, w, steps, start))
    decreases |steps|
  {
    hide Attempt, Recorded;
    if steps != [] {
      var n := |steps| - 1;
      RecordsFollowTheBank(c, pr, w, steps[..n], start);
      RunIsSound(c, pr, w, steps[..n]);
      var before := Run(c, pr, w, steps[..n]);
      if Attempt(c, pr, before, steps[n]).Some? {
        StepIsRecorded(c, pr, before, steps[n], Unrecorded(c, pr, w, steps[..n], start),
                       Attempt(c, pr, before, steps[n]).value);
      }
    }
  }

  /** From instantiation on, coins the address already held counting as donations. */
  lemma RecordsFromInstantiation(c: Curve, pr: Pair, bank: Book, cfg: Config, steps: seq<Step>)
    requires pr.Valid() && Honest(pr, steps) && Total(bank, pr.lpDenom) == 0
    ensures
      var w := Instantiated(pr, bank, cfg);
      Recorded(pr, Run(c, pr, w, steps), Unrecorded(c, pr, w, steps, Reserves(pr, w)))
  {
    hide Run, Unrecorded, Bal;
    RecordsFollowTheBank(c, pr, Instantiated(pr, bank, cfg), steps, Reserves(pr, Instantiated(pr, bank, cfg)));
  }
}
