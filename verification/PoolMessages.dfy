/** What running emitted messages does to every account, in one step per message list. */
module PoolMessages {
  import opened Outcome
  import opened FixedPoint
  import opened Bank
  import opened PoolTypes
  import opened PoolSpec

  predicate AllPays(ms: seq<Msg>) { forall i :: 0 <= i < |ms| ==> ms[i].Pay? }

  /** Total of coin d leaving the pair. */
  function PaidOut(ms: seq<Msg>, d: Denom): nat {
    if ms == [] then 0 else
    (if ms[0].Pay? && ms[0].coin.denom == d then ms[0].coin.amount else 0) + PaidOut(ms[1..], d)
  }

  /** Total of coin d reaching account a. */
  function PaidTo(ms: seq<Msg>, a: Addr, d: Denom): nat {
    if ms == [] then 0 else
    (if ms[0].Pay? && ms[0].to == a && ms[0].coin.denom == d then ms[0].coin.amount else 0) + PaidTo(ms[1..], a, d)
  }

  ghost predicate PayRelation(pair: Addr, b: Book, ms: seq<Msg>, b': Book) {
    forall a, d :: (Bal(b', a, d) == Bal(b, a, d) - (if a == pair then PaidOut(ms, d) else 0) + PaidTo(ms, a, d))
  }

  /** Payments run one after the other add up, whoever the payees are. */
  lemma {:induction false} PayEffect(pair: Addr, g: Ledger, ms: seq<Msg>, e: Denom)
    requires AllPays(ms) && RunMsgs(pair, g, ms).Some?
    ensures PayRelation(pair, g.bank, ms, RunMsgs(pair, g, ms).value.bank)
    ensures RunMsgs(pair, g, ms).value.lpSupply == g.lpSupply
    ensures Total(RunMsgs(pair, g, ms).value.bank, e) == Total(g.bank, e)
    decreases |ms|
  {
    if ms != [] {
      SendMoves(g.bank, pair, ms[0].to, ms[0].coin.denom, ms[0].coin.amount);
      PayEffect(pair, RunMsg(pair, g, ms[0]).value, ms[1..], e);
    }
  }

  /** The payments of a swap carry only the ask asset. */
  lemma PayoutsShape(pr: Pair, fee: FeeInfo, ai: Side, returned: nat, charged: nat, receiver: Addr)
    requires charged > 0 ==> fee.feeAddress.Some?
    ensures
      var ms := Payouts(pr, fee, ai, returned, charged, receiver);
      && AllPays(ms)
      && (forall d :: PaidOut(ms, d) == if d == pr.denoms.At(ai) then returned + charged else 0)
      && (forall a, d :: PaidTo(ms, a, d) == if d != pr.denoms.At(ai) then 0 else
            (if a == receiver then returned else 0) + (if fee.feeAddress == Some(a) then charged else 0))
  {
    var ms := Payouts(pr, fee, ai, returned, charged, receiver);
    if |ms| == 2 {
      var last := Pay(fee.feeAddress.value, Coin(pr.denoms.At(ai), charged));
      assert ms[1..] == [last] && [last][1..] == [];
      forall a, d
        ensures PaidTo([last], a, d) == if fee.feeAddress == Some(a) && d == pr.denoms.At(ai) then charged else 0
      {
      }
      forall d
        ensures PaidOut([last], d) == if d == pr.denoms.At(ai) then charged else 0
      {
      }
    } else {
      assert ms[1..] == [];
    }
  }

  /** A message list run in two parts. */
  lemma {:induction false} RunConcat(pair: Addr, g: Ledger, xs: seq<Msg>, ys: seq<Msg>)
    ensures RunMsgs(pair, g, xs + ys) ==
      if RunMsgs(pair, g, xs).Some? then RunMsgs(pair, RunMsgs(pair, g, xs).value, ys) else None
    decreases |xs|
  {
    if xs == [] {
      assert xs + ys == ys;
    } else {
      assert (xs + ys)[1..] == xs[1..] + ys;
      var g' := RunMsg(pair, g, xs[0]);
      if g'.Some? { RunConcat(pair, g'.value, xs[1..], ys); }
    }
  }
}
