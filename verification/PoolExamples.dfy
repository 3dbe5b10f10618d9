/** Two short histories of one pair in which a general expectation fails. */
module PoolExamples {
  import opened Outcome
  import opened FixedPoint
  import opened Bank
  import opened PoolTypes
  import opened PoolSpec
  import opened PoolTrades
  import opened PoolRecords
  import opened PoolRuns

  /** A curve that answers every trade with five units, and never updates a price or leaves a precommit. */
  const FIVE: Curve := Curve(
    1000, 1, (_, _) => AmpGamma(1, 1), (_, _) => None, (_, _) => None, (_, _, _) => 0,
    (_, _, _, _, _, _) => Some(SwapResult(5, 0, 0, 0, 0)), (_, _, _, _, _) => None, (_, _, _) => None,
    (_, _, _, _, _, _) => None, (_, _) => true, (_, _, _, _, _) => true, (_, _, _, _) => true, (_, _) => None, true)

  const PAIR: Pair := Pair("pair", Duo("x", "y"), Duo(18, 18), "lp", "factory", 7)

  const CONFIG: Config := Config(
    PoolParams(0, 0, 0, 0, 0, 0), PoolState(AmpGamma(1, 1), AmpGamma(1, 1), 0, 0, PriceState(1, 1, 1, 0, 0, 0)), true)

  /** The pair already holds a hundred units of each asset, another pool holds five, and a user ten. */
  const BANK: Book :=
    map[("pair", "x") := 100, ("pair", "y") := 100, ("pool8", "y") := 5, ("user", "x") := 10]

  const ENV: Env := Env(1, FeeInfo(None, 0), true, "owner", Some(("pool8", 5)))

  /** The factory announces an id, then a user swaps ten x through the pair. */
  function History(id: nat, to: Option<Addr>): seq<Step> {
    [Step(ENV, SetId("factory", id)), Step(ENV, SwapViaPair("user", Coin("x", 10), None, None, to))]
  }

  lemma RunOfTwo(c: Curve, pr: Pair, w: World, first: Step, second: Step)
    ensures Run(c, pr, w, [first, second]) == Exec(c, pr, Exec(c, pr, w, first), second)
  {
    hide Exec;
    assert [first, second][..1] == [first] && [first][..0] == [];
    assert Run(c, pr, w, [first]) == Exec(c, pr, Run(c, pr, w, []), first);
  }

  lemma UnitsAreWhole()
    ensures Unit(18) == 1
  {
    assert Pow10(0) == 1;
  }

  /** A settlement of ten x goes through whenever nothing waits to be observed and the reserves are a hundred each. */
  lemma FiveSettles(m: World, receiver: Addr)
    requires m.config == CONFIG && m.precommit.None?
    ensures
      var s := Settle(FIVE, PAIR, ENV, m, Duo(100, 100), 0, 10, receiver);
      && s.Some? && s.value.world.ledger == m.ledger
      && s.value.msgs == [Pay(receiver, Coin("y", 5))]
  {
    hide Accumulate, Committed;
    UnitsAreWhole();
    FloorUnique(5, 1, 5);
    FloorUnique(0, 1, 0);
    assert Accumulate(FIVE, m.precommit, m.observations, 1) == Some(m.observations) by { NothingWaits(m.observations); }
  }

  lemma NothingWaits(obs: seq<Observation>)
    ensures Accumulate(FIVE, None, obs, 1) == Some(obs)
  {
  }

  lemma OnePayment(pair: Addr, g: Ledger, to: Addr, coin: Coin)
    requires 0 < coin.amount <= Bal(g.bank, pair, coin.denom)
    ensures RunMsgs(pair, g, [Pay(to, coin)]).Some?
  {
    var g' := RunMsg(pair, g, Pay(to, coin)).value;
    assert [Pay(to, coin)][1..] == [];
    assert RunMsgs(pair, g', []) == Some(g');
  }

  function Announced(id: nat): World { Instantiated(PAIR, BANK, CONFIG).(poolId := Some(id)) }

  lemma AnnouncedIs(id: nat)
    ensures Exec(FIVE, PAIR, Instantiated(PAIR, BANK, CONFIG), Step(ENV, SetId("factory", id))) == Announced(id)
  {
  }

  lemma OwnSwapSucceeds(to: Option<Addr>)
    ensures PairSwap(FIVE, PAIR, ENV, Announced(7), "user", "x", 10, None, None, to).Some?
  {
    hide Settle, RunMsgs, Decs, ToDec;
    var w := Announced(7);
    var m := Move(w, "user", "pair", "x", 10).value.(swapParams := Some(SwapParams(None, None, "user", to)));
    var n := Move(m, "pair", "pair", "x", 10).value;
    var v := n.(swapParams := None);
    assert Reserves(PAIR, v) == Duo(110, 100);
    FiveSettles(v, UnwrapOr(to, "user"));
    OnePayment("pair", v.ledger, UnwrapOr(to, "user"), Coin("y", 5));
    var s := InternalSwap(FIVE, PAIR, ENV, v, "user", "x", 10, None, None, to);
    assert s == Settle(FIVE, PAIR, ENV, v, Duo(100, 100), 0, 10, UnwrapOr(to, "user"));
    assert SudoSwapIn(FIVE, PAIR, ENV, n, "pair", "x", 10, 1) == s;
  }

  /** A swap whose proceeds go to the pair itself leaves the records wrong, in a history from instantiation on. */
  lemma SelfPaymentExample()
    ensures
      var v := Run(FIVE, PAIR, Instantiated(PAIR, BANK, CONFIG), History(7, Some("pair")));
      v.config.trackBalances && !Recorded(PAIR, v, Duo(0, 0))
  {
    hide PairSwap, Run, TradeOf, Recorded, Charged;
    var w, s := Announced(7), History(7, Some("pair"))[1];
    AnnouncedIs(7);
    OwnSwapSucceeds(Some("pair"));
    RunOfTwo(FIVE, PAIR, Instantiated(PAIR, BANK, CONFIG), History(7, Some("pair"))[0], s);
    SwapRecordsExactly(FIVE, PAIR, w, s, Attempt(FIVE, PAIR, w, s).value);
  }

  /** Under an id other than the pool's own, a swap goes through the other pool and leaves its parameters behind. */
  lemma ForeignPoolExample()
    ensures Run(FIVE, PAIR, Instantiated(PAIR, BANK, CONFIG), History(8, None)).swapParams.Some?
  {
    hide Run;
    var w, s := Announced(8), History(8, None)[1];
    AnnouncedIs(8);
    ForeignSwapSucceeds();
    RunOfTwo(FIVE, PAIR, Instantiated(PAIR, BANK, CONFIG), History(8, None)[0], s);
    DispatchConsumesParamsIff(FIVE, PAIR, ENV, w, "user", Coin("x", 10), None, None, None,
                              Attempt(FIVE, PAIR, w, s).value);
  }

  lemma ForeignSwapSucceeds()
    ensures PairSwap(FIVE, PAIR, ENV, Announced(8), "user", "x", 10, None, None, None).Some?
  {
    hide DexSwapIn;
  }
}
