/** The observation feed: what enters it and when, over single swaps and over runs. */
module PoolFeed {
  import opened Outcome
  import opened FixedPoint
  import opened Bank
  import opened PoolTypes
  import opened PoolSpec
  import opened PoolSwaps
  import opened PoolTrades
  import opened PoolLiquidity
  import opened PoolRuns

  /** Timestamps strictly increase, none is later than the waiting precommit, and that is not in the future. */
  predicate FeedOk(pre: Option<Precommit>, obs: seq<Observation>, now: nat) {
    && (forall i, j :: 0 <= i < j < |obs| ==> obs[i].ts < obs[j].ts)
    && (pre.Some? ==> pre.value.ts <= now)
    && (obs != [] ==> pre.Some? && obs[|obs| - 1].ts <= pre.value.ts)
  }

  /** A waiting precommit can be priced. */
  predicate Priced(pre: Option<Precommit>) { pre.Some? ==> pre.value.base > 0 && pre.value.quote > 0 }

  lemma AccumulateKeepsFeed(c: Curve, pre: Option<Precommit>, obs: seq<Observation>, now: nat)
    requires FeedOk(pre, obs, now) && Accumulate(c, pre, obs, now).Some?
    ensures
      var obs' := Accumulate(c, pre, obs, now).value;
      && FeedOk(pre, obs', now) && obs <= obs' && |obs'| <= |obs| + 1
      && (|obs'| > |obs| ==> (
           && obs'[|obs|].ts == pre.value.ts
           && obs'[|obs|].price == FloorDiv(pre.value.base * ONE, pre.value.quote)))
  {
  }

  lemma SettleFeed(c: Curve, pr: Pair, env: Env, m: World, r: Duo<nat>, os: Side, offer: nat, receiver: Addr, now: nat)
    requires Settle(c, pr, env, m, r, os, offer, receiver).Some?
    requires FeedOk(m.precommit, m.observations, now) && now <= env.time
    ensures
      var v := Settle(c, pr, env, m, r, os, offer, receiver).value.world;
      && Accumulate(c, m.precommit, m.observations, env.time) == Some(v.observations)
      && FeedOk(v.precommit, v.observations, env.time) && m.observations <= v.observations
  {
    hide Repriced, Payouts, Decs, AfterTrade, ToUint;
    AccumulateKeepsFeed(c, m.precommit, m.observations, env.time);
  }

  /** After any swap transaction the reserves have changed by the offer, the return and the fee of the trade, and a
      trade of at least the minimum size leaves a precommit that holds exactly the two flows, first asset first, or
      these added to the waiting ones of the same block, as the library has it. It can be priced, for nothing is
      offered or returned that is zero. */
  lemma PrecommitNotesFlows(c: Curve, pr: Pair, w: World, s: Step, w': World)
    requires pr.Valid() && Outsider(pr, s) && KnowsId(pr, w) && w.swapParams.None?
    requires IsSwap(s.action) && Attempt(c, pr, w, s) == Some(w')
    ensures TradeOf(c, pr, w, s).Some?
    ensures
      var t := TradeOf(c, pr, w, s).value;
      var flows := if t.side == 0 then Duo(t.offer, Returned(pr, t)) else Duo(Returned(pr, t), t.offer);
      && Reserves(pr, w').At(t.side) == Reserves(pr, w).At(t.side) + t.offer
      && Reserves(pr, w').At(Other(t.side)) ==
           Reserves(pr, w).At(Other(t.side)) - Returned(pr, t) - Charged(pr, s.env.fee, t) + PaidToSelf(pr, s, t)
      && w'.precommit == (
           if ToDec(t.offer, pr.precisions.At(t.side)) < c.minTradeSize || t.result.dy < c.minTradeSize then w.precommit
           else if c.sumsBlock && w.precommit.Some? && w.precommit.value.ts == s.env.time then
             Some(Precommit(w.precommit.value.base + flows.x0, w.precommit.value.quote + flows.x1, s.env.time))
           else Some(Precommit(flows.x0, flows.x1, s.env.time)))
      && (c.minTradeSize > 0 && Priced(w.precommit) ==> Priced(w'.precommit))
  {
    hide Attempt, TradeOf, Returned, FeeCharged, Decs, Reserves;
    SwapEffect(c, pr, w, s, w');
  }

  predicate SameFeed(w: World, v: World) { w.precommit == v.precommit && w.observations == v.observations }

  /** Only swaps touch the feed. */
  lemma OthersLeaveFeed(c: Curve, pr: Pair, w: World, s: Step, w': World)
    requires pr.Valid() && Outsider(pr, s) && !IsSwap(s.action) && Attempt(c, pr, w, s) == Some(w')
    ensures SameFeed(w, w')
  {
    hide RunMsgs, ProvideTx, WithdrawTx, Minted, Refund, Send;
    match s.action
    case Provide(sender, assets, tolerance, receiver) =>
      ProvideEffect(c, pr, s.env, w, sender, assets, tolerance, receiver, w');
    case Withdraw(sender, funds, wanted) =>
      WithdrawEffect(c, pr, s.env, w, sender, funds, wanted, w');
    case _ =>
  }

  /** Block times never run backwards. */
  predicate Timed(steps: seq<Step>, start: nat) {
    (forall i :: 0 <= i < |steps| ==> start <= steps[i].env.time)
    && forall i, j :: 0 <= i < j < |steps| ==> steps[i].env.time <= steps[j].env.time
  }

  function Now(steps: seq<Step>, start: nat): nat { if steps == [] then start else steps[|steps| - 1].env.time }

  lemma StepFeed(c: Curve, pr: Pair, w: World, s: Step, now: nat, w': World)
    requires pr.Valid() && Outsider(pr, s) && KnowsId(pr, w) && w.swapParams.None?
    requires FeedOk(w.precommit, w.observations, now) && now <= s.env.time && Attempt(c, pr, w, s) == Some(w')
    ensures FeedOk(w'.precommit, w'.observations, s.env.time) && w.observations <= w'.observations
    ensures c.minTradeSize > 0 && Priced(w.precommit) ==> Priced(w'.precommit)
  {
    hide Attempt, RunMsgs, Settle, TradeOf, Returned, FeeCharged, Reserves, Decs;
    if IsSwap(s.action) {
      var m, f, t := SwapFrame(c, pr, w, s, w');
      SettleFeed(c, pr, s.env, m, Reserves(pr, w), t.side, t.offer, Payee(s.action), now);
      PrecommitNotesFlows(c, pr, w, s, w');
    } else {
      OthersLeaveFeed(c, pr, w, s, w');
    }
  }

  /** Over every run the feed is append-only, its timestamps strictly increase (so each block time appears at
      most once) and stay at or before the current block; and with a positive minimum trade size the waiting precommit
      can always be priced. */
  lemma {:induction false} FeedOverRuns(c: Curve, pr: Pair, w: World, steps: seq<Step>, start: nat)
    requires pr.Valid() && Ordinary(pr, steps) && Timed(steps, start) && Sound(c, pr, w)
    requires FeedOk(w.precommit, w.observations, start)
    ensures
      var v := Run(c, pr, w, steps);
      && FeedOk(v.precommit, v.observations, Now(steps, start)) && w.observations <= v.observations
      && (c.minTradeSize > 0 && Priced(w.precommit) ==> Priced(v.precommit))
    decreases |steps|
  {
    hide Attempt;
    if steps != [] {
      var n := |steps| - 1;
      var before := Run(c, pr, w, steps[..n]);
      FeedOverRuns(c, pr, w, steps[..n], start);
      RunIsSound(c, pr, w, steps[..n]);
      if Attempt(c, pr, before, steps[n]).Some? {
        StepFeed(c, pr, before, steps[n], Now(steps[..n], start), Attempt(c, pr, before, steps[n]).value);
      }
    }
  }

  /** In every state reached from instantiation, for every positive minimum trade size: both amounts of the waiting
      precommit are positive, so the feed can fail a swap only through the moving average. */
  lemma PriceIsAlwaysDefined(c: Curve, pr: Pair, bank: Book, cfg: Config, steps: seq<Step>, start: nat, now: nat)
    requires pr.Valid() && Ordinary(pr, steps) && Timed(steps, start) && Total(bank, pr.lpDenom) == 0
    requires c.minTradeSize > 0
    ensures
      var v := Run(c, pr, Instantiated(pr, bank, cfg), steps);
      && Priced(v.precommit)
      && (Accumulate(c, v.precommit, v.observations, now).None? ==>
           && v.precommit.Some? && v.observations != []
           && c.movingAverage(v.observations, FloorDiv(v.precommit.value.base * ONE, v.precommit.value.quote)).None?)
  {
    hide Run, FloorDiv;
    FeedOverRuns(c, pr, Instantiated(pr, bank, cfg), steps, start);
  }

  // ----- Where the feed comes from -----

  /** The price that a precommit stands for. */
  function PriceOf(p: Precommit): Dec { if p.quote == 0 then 0 else FloorDiv(p.base * ONE, p.quote) }

  /** The step is an accepted swap whose trade is large enough to be priced. */
  predicate NotesTrade(c: Curve, pr: Pair, w: World, s: Step) {
    && IsSwap(s.action) && Attempt(c, pr, w, s).Some?
    && TradeOf(c, pr, w, s).Some? && Priceable(c, pr, TradeOf(c, pr, w, s).value)
  }

  /** The flows that wait after a run, put together from its trades alone. */
  function Waiting(c: Curve, pr: Pair, w: World, steps: seq<Step>): Option<Precommit>
    decreases |steps|
  {
    if steps == [] then None else
    var n := |steps| - 1;
    var before, rest := Run(c, pr, w, steps[..n]), Waiting(c, pr, w, steps[..n]);
    if !NotesTrade(c, pr, before, steps[n]) then rest else
    var flows := Flows(pr, TradeOf(c, pr, before, steps[n]).value);
    Some(Noted(c, rest, flows.x0, flows.x1, steps[n].env.time))
  }

  /** Some step of the run is a trade at time ts, after which the waiting flows have this price. */
  predicate FromTrades(c: Curve, pr: Pair, w: World, steps: seq<Step>, ts: nat, price: Dec)
    decreases |steps|
  {
    steps != [] &&
    var n := |steps| - 1;
    || FromTrades(c, pr, w, steps[..n], ts, price)
    || (&& NotesTrade(c, pr, Run(c, pr, w, steps[..n]), steps[n])
        && ts == steps[n].env.time && Waiting(c, pr, w, steps).Some?
        && price == PriceOf(Waiting(c, pr, w, steps).value))
  }

  lemma SwapFeed(c: Curve, pr: Pair, w: World, s: Step, w': World)
    requires pr.Valid() && Outsider(pr, s) && KnowsId(pr, w) && w.swapParams.None?
    requires IsSwap(s.action) && Attempt(c, pr, w, s) == Some(w')
    ensures Accumulate(c, w.precommit, w.observations, s.env.time) == Some(w'.observations)
    ensures TradeOf(c, pr, w, s).Some?
    ensures w'.precommit == Remembered(c, pr, TradeOf(c, pr, w, s).value, w.precommit, s.env.time)
  {
    hide Attempt, RunMsgs, Settle, TradeOf, Remembered, Accumulate, Decs, ToDec;
    var m, f, t := SwapFrame(c, pr, w, s, w');
    SettleAccumulates(c, pr, s.env, m, Reserves(pr, w), t.side, t.offer, Payee(s.action));
    SwapEffect(c, pr, w, s, w');
  }

  lemma SettleAccumulates(c: Curve, pr: Pair, env: Env, m: World, r: Duo<nat>, os: Side, offer: nat, receiver: Addr)
    requires Settle(c, pr, env, m, r, os, offer, receiver).Some?
    ensures
      var v := Settle(c, pr, env, m, r, os, offer, receiver).value.world;
      Accumulate(c, m.precommit, m.observations, env.time) == Some(v.observations)
  {
    hide Repriced, Payouts, Decs, AfterTrade, ToUint, Accumulate;
  }

  /** The waiting precommit and every observation carry the time of a trade and the price of what waited after it. */
  predicate AllFromTrades(c: Curve, pr: Pair, w: World, steps: seq<Step>, pre: Option<Precommit>,
                          obs: seq<Observation>) {
    && (pre.Some? ==> FromTrades(c, pr, w, steps, pre.value.ts, PriceOf(pre.value)))
    && forall i :: 0 <= i < |obs| ==> FromTrades(c, pr, w, steps, obs[i].ts, obs[i].price)
  }

  lemma AccumulateFromTrades(c: Curve, pr: Pair, w: World, steps: seq<Step>, pre: Option<Precommit>,
                             obs: seq<Observation>, now: nat)
    requires AllFromTrades(c, pr, w, steps, pre, obs) && Accumulate(c, pre, obs, now).Some?
    ensures AllFromTrades(c, pr, w, steps, pre, Accumulate(c, pre, obs, now).value)
  {
    hide FromTrades, FloorDiv;
  }

  /** From instantiation on, the waiting precommit is what the trades of the run make it, and every observation carries
      the time of one of the trades and the price of the flows that waited after it. */
  lemma {:induction false} FeedComesFromTrades(c: Curve, pr: Pair, w: World, steps: seq<Step>)
    requires pr.Valid() && Ordinary(pr, steps) && Sound(c, pr, w) && w.precommit.None? && w.observations == []
    ensures Run(c, pr, w, steps).precommit == Waiting(c, pr, w, steps)
    ensures AllFromTrades(c, pr, w, steps, Run(c, pr, w, steps).precommit, Run(c, pr, w, steps).observations)
    decreases |steps|
  {
    if steps != [] {
      hide Attempt, Sound, TradeOf, Accumulate, FloorDiv, Priceable, Flows, FromTrades;
      var n := |steps| - 1;
      var init, s := steps[..n], steps[n];
      var before := Run(c, pr, w, init);
      FeedComesFromTrades(c, pr, w, init);
      RunIsSound(c, pr, w, init);
      StillFromTrades(c, pr, w, steps, before.precommit, before.observations);
      if Attempt(c, pr, before, s).Some? {
        StepFromTrades(c, pr, w, steps, Attempt(c, pr, before, s).value);
      }
    }
  }

  lemma StillFromTrades(c: Curve, pr: Pair, w: World, steps: seq<Step>, pre: Option<Precommit>, obs: seq<Observation>)
    requires steps != [] && AllFromTrades(c, pr, w, steps[..|steps| - 1], pre, obs)
    ensures AllFromTrades(c, pr, w, steps, pre, obs)
  {
    hide NotesTrade, Waiting, Run, PriceOf;
  }

  lemma StepFromTrades(c: Curve, pr: Pair, w: World, steps: seq<Step>, w': World)
    requires pr.Valid() && steps != []
    requires
      var before, s := Run(c, pr, w, steps[..|steps| - 1]), steps[|steps| - 1];
      && Outsider(pr, s) && Sound(c, pr, before) && Attempt(c, pr, before, s) == Some(w')
      && before.precommit == Waiting(c, pr, w, steps[..|steps| - 1])
      && AllFromTrades(c, pr, w, steps, before.precommit, before.observations)
    ensures w'.precommit == Waiting(c, pr, w, steps)
    ensures AllFromTrades(c, pr, w, steps, w'.precommit, w'.observations)
  {
    hide Attempt, TradeOf, Accumulate, Run, PriceOf, Priceable, Flows;
    var before, s := Run(c, pr, w, steps[..|steps| - 1]), steps[|steps| - 1];
    if IsSwap(s.action) {
      SwapFeed(c, pr, before, s, w');
      AccumulateFromTrades(c, pr, w, steps, before.precommit, before.observations, s.env.time);
    } else {
      OthersLeaveFeed(c, pr, before, s, w');
    }
  }

  // ----- When the feed grows -----

  /** The waiting precommit is due: its block is over and the feed is still empty, or the feed ends before it. */
  predicate Due(pre: Option<Precommit>, obs: seq<Observation>, now: nat) {
    pre.Some? && if obs == [] then pre.value.ts < now else obs[|obs| - 1].ts < pre.value.ts
  }

  /** An accepted swap appends an observation exactly when the precommit it finds waiting is due: of that time, of the
      price of those flows, and with the price itself as first average and the moving average of the feed after that. */
  lemma SwapGrowsFeed(c: Curve, pr: Pair, w: World, s: Step, w': World)
    requires pr.Valid() && Outsider(pr, s) && KnowsId(pr, w) && w.swapParams.None?
    requires IsSwap(s.action) && Attempt(c, pr, w, s) == Some(w')
    ensures w.precommit.Some? ==> w.precommit.value.quote > 0
    ensures
      if !Due(w.precommit, w.observations, s.env.time) then w'.observations == w.observations else
      var p := w.precommit.value;
      var price := FloorDiv(p.base * ONE, p.quote);
      var average := if w.observations == [] then Some(price) else c.movingAverage(w.observations, price);
      average.Some? && w'.observations == w.observations + [Observation(p.ts, price, average.value)]
  {
    hide Attempt, TradeOf, Remembered, FloorDiv;
    SwapFeed(c, pr, w, s, w');
  }

  /** The feed keeps up with the trades: when a swap is accepted in a later block than the waiting precommit, the feed
      has an observation of that precommit's time from then on. */
  lemma FeedKeepsUp(c: Curve, pr: Pair, w: World, start: nat, s: Step, w': World, later: seq<Step>)
    requires pr.Valid() && Outsider(pr, s) && TrueId(pr, s) && Sound(c, pr, w) && Ordinary(pr, later)
    requires FeedOk(w.precommit, w.observations, start) && start <= s.env.time && Timed(later, s.env.time)
    requires IsSwap(s.action) && Attempt(c, pr, w, s) == Some(w')
    requires w.precommit.Some? && w.precommit.value.ts < s.env.time
    ensures exists o :: o in Run(c, pr, w', later).observations && o.ts == w.precommit.value.ts
  {
    hide Attempt, Run, FloorDiv, Sound;
    SoundMeans(c, pr, w);
    SwapGrowsFeed(c, pr, w, s, w');
    StepFeed(c, pr, w, s, start, w');
    StepIsSound(c, pr, w, s);
    assert Exec(c, pr, w, s) == w';
    FeedOverRuns(c, pr, w', later, s.env.time);
    var o := w'.observations[|w'.observations| - 1];
    assert o.ts == w.precommit.value.ts;
    assert o == Run(c, pr, w', later).observations[|w'.observations| - 1];
  }

  lemma SoundMeans(c: Curve, pr: Pair, w: World)
    requires Sound(c, pr, w)
    ensures KnowsId(pr, w) && w.swapParams.None?
  {
  }

  /** In particular in every history from instantiation on. */
  lemma FeedKeepsUpFromInstantiation(c: Curve, pr: Pair, bank: Book, cfg: Config, early: seq<Step>, start: nat, s: Step,
                                     later: seq<Step>)
    requires pr.Valid() && Ordinary(pr, early) && Ordinary(pr, later) && Outsider(pr, s) && TrueId(pr, s)
    requires Total(bank, pr.lpDenom) == 0
    requires Timed(early, start) && Now(early, start) <= s.env.time && Timed(later, s.env.time)
    requires
      var w := Run(c, pr, Instantiated(pr, bank, cfg), early);
      && IsSwap(s.action) && Attempt(c, pr, w, s).Some?
      && w.precommit.Some? && w.precommit.value.ts < s.env.time
    ensures
      var w := Run(c, pr, Instantiated(pr, bank, cfg), early);
      exists o :: o in Run(c, pr, Attempt(c, pr, w, s).value, later).observations && o.ts == w.precommit.value.ts
  {
    hide Run, Attempt;
    var w := Run(c, pr, Instantiated(pr, bank, cfg), early);
    ReachableIsSound(c, pr, bank, cfg, early);
    FeedOverRuns(c, pr, Instantiated(pr, bank, cfg), early, start);
    FeedKeepsUp(c, pr, w, Now(early, start), s, Attempt(c, pr, w, s).value, later);
  }
}
