/** What holds of the factory's registry over whole runs. */
module FactoryRuns {
  import opened Outcome
  import opened Bank
  import opened FactoryKeys
  import opened FactoryPages
  import opened FactorySpec
  import PoolTypes
  import PoolSpec
  import PoolTrades
  import PoolRuns

  // ----- Any order of entry points -----

  lemma {:induction false} AssetsFlawless(env: FactoryEnv, infos: seq<AssetInfo>)
    ensures FirstAssetFlaw(env, infos).None? <==>
      forall i :: 0 <= i < |infos| ==> infos[i].NativeToken? && env.denomExists(infos[i].denom)
    decreases |infos|
  {
    if infos != [] {
      AssetsFlawless(env, infos[1..]);
      assert forall i :: 0 < i < |infos| ==> infos[i] == infos[1..][i - 1];
      assert forall i :: 0 <= i < |infos| - 1 ==> infos[1..][i] == infos[i + 1];
    }
  }

  /** The steps of a run that were accepted, in order: what the chain's history shows. */
  function Accepted(st: Registry, steps: seq<FactoryStep>): seq<FactoryStep> {
    if steps == [] then [] else
    var n := |steps| - 1;
    Accepted(st, steps[..n]) + if Attempt(Run(st, steps[..n]), steps[n]).Ok? then [steps[n]] else []
  }

  /** Key of the last creation of a history. */
  function Pending(start: Option<Key>, history: seq<FactoryStep>): Option<Key> {
    if history == [] then start else
    var n := |history| - 1;
    if history[n].action.Create? then Some(PairKey(history[n].action.assetInfos)) else Pending(start, history[..n])
  }

  /** The step is a pool's answer while this key is pending. */
  predicate Registers(s: FactoryStep, pending: Option<Key>, k: Key) {
    s.action.Answer? && s.action.id == INSTANTIATE_PAIR_REPLY_ID && pending == Some(k)
  }

  /** Address last registered under a key and not removed since. The creations, replies and removals of the history
      alone decide it. */
  function LastRegistered(start: Registry, history: seq<FactoryStep>, k: Key): Option<Addr> {
    if history == [] then Lookup(start.pairs, k) else
    var n := |history| - 1;
    var s := history[n];
    if s.action.Remove? && PairKey(s.action.assetInfos) == k then None
    else if Registers(s, Pending(start.tmp, history[..n]), k) then
      s.env.contractOf(UnwrapOr(s.action.poolId, 0))
    else LastRegistered(start, history[..n], k)
  }

  lemma HistoryGrows(start: Registry, history: seq<FactoryStep>, s: FactoryStep, k: Key)
    ensures Pending(start.tmp, history + [s]) ==
      if s.action.Create? then Some(PairKey(s.action.assetInfos)) else Pending(start.tmp, history)
    ensures LastRegistered(start, history + [s], k) ==
      if s.action.Remove? && PairKey(s.action.assetInfos) == k then None
      else if Registers(s, Pending(start.tmp, history), k) then
        s.env.contractOf(UnwrapOr(s.action.poolId, 0))
      else LastRegistered(start, history, k)
  {
    hide PairKey;
    assert (history + [s])[..|history|] == history;
  }

  lemma StepEffect(st: Registry, s: FactoryStep, k: Key)
    ensures
      var st' := Exec(st, s);
      if Attempt(st, s).Err? then st' == st else
      match s.action
      case Create(_, infos) => st'.tmp == Some(PairKey(infos)) && st'.pairs == st.pairs
      case Answer(id, poolId) =>
        && st'.tmp == st.tmp
        && (id == INSTANTIATE_PAIR_REPLY_ID ==> st.tmp.Some?)
        && Lookup(st'.pairs, k) ==
           if Registers(s, st.tmp, k) then s.env.contractOf(UnwrapOr(poolId, 0)) else Lookup(st.pairs, k)
      case Remove(_, infos) =>
        st'.tmp == st.tmp && Lookup(st'.pairs, k) == if PairKey(infos) == k then None else Lookup(st.pairs, k)
  {
    hide PairKey, CheckAssetInfos;
  }

  /** The registry is what the accepted steps say, whatever the order of creations, replies and removals; refused ones
      leave no trace. */
  lemma {:induction false} RegistryFollowsHistory(st: Registry, steps: seq<FactoryStep>, k: Key)
    ensures Run(st, steps).tmp == Pending(st.tmp, Accepted(st, steps))
    ensures Lookup(Run(st, steps).pairs, k) == LastRegistered(st, Accepted(st, steps), k)
    decreases |steps|
  {
    if steps != [] {
      hide PairKey, Exec, Attempt, Pending, LastRegistered, Lookup;
      var n := |steps| - 1;
      RegistryFollowsHistory(st, steps[..n], k);
      StepEffect(Run(st, steps[..n]), steps[n], k);
      HistoryGrows(st, Accepted(st, steps[..n]), steps[n], k);
      assert Accepted(st, steps[..n]) + [] == Accepted(st, steps[..n]);
    }
  }

  /** Some accepted step of the run removes a list of assets with this key. */
  predicate Removed(st: Registry, steps: seq<FactoryStep>, k: Key) {
    exists i :: 0 <= i < |steps| && Removes(Run(st, steps[..i]), steps[i], k)
  }

  predicate Removes(st: Registry, s: FactoryStep, k: Key) {
    s.action.Remove? && PairKey(s.action.assetInfos) == k && Attempt(st, s).Ok?
  }

  lemma StepKeepsEntry(st: Registry, s: FactoryStep, k: Key)
    requires k in st.pairs
    ensures
      var after := Exec(st, s).pairs;
      if Removes(st, s, k) then k !in after else k in after && after[k] == st.pairs[k]
  {
    hide PairKey, CheckAssetInfos;
  }

  /** A registered key keeps its address until an accepted removal of a list with that key: no creation and no reply
      ever overwrites it. */
  lemma {:induction false} EntryKeepsAddress(st: Registry, steps: seq<FactoryStep>, k: Key)
    requires k in st.pairs && !Removed(st, steps, k)
    ensures k in Run(st, steps).pairs && Run(st, steps).pairs[k] == st.pairs[k]
    decreases |steps|
  {
    if steps != [] {
      hide Exec, Removes;
      var n := |steps| - 1;
      forall i | 0 <= i < n ensures !Removes(Run(st, steps[..n][..i]), steps[..n][i], k) {
        assert steps[..n][..i] == steps[..i] && steps[..n][i] == steps[i];
      }
      EntryKeepsAddress(st, steps[..n], k);
      StepKeepsEntry(Run(st, steps[..n]), steps[n], k);
    }
  }

  lemma {:induction false} PendingStays(st: Registry, steps: seq<FactoryStep>)
    requires forall i :: 0 <= i < |steps| ==> !steps[i].action.Create?
    ensures Run(st, steps).tmp == st.tmp
    decreases |steps|
  {
    if steps != [] {
      hide PairKey, CheckAssetInfos;
      PendingStays(st, steps[..|steps| - 1]);
    }
  }

  /** One creation registers one pair: after its reply, further replies are refused until there is a new creation or
      the entry is removed. */
  lemma SecondReplyRefused(env: FactoryEnv, st: Registry, poolId: Option<nat>, steps: seq<FactoryStep>,
                           env': FactoryEnv, poolId': Option<nat>)
    requires Reply(env, st, INSTANTIATE_PAIR_REPLY_ID, poolId).Ok?
    requires var after := Reply(env, st, INSTANTIATE_PAIR_REPLY_ID, poolId).value.0;
      (forall i :: 0 <= i < |steps| ==> !steps[i].action.Create?) && !Removed(after, steps, st.tmp.value)
    ensures var after := Reply(env, st, INSTANTIATE_PAIR_REPLY_ID, poolId).value.0;
      Reply(env', Run(after, steps), INSTANTIATE_PAIR_REPLY_ID, poolId') == Err(PairWasRegistered)
  {
    var after := Reply(env, st, INSTANTIATE_PAIR_REPLY_ID, poolId).value.0;
    PendingStays(after, steps);
    EntryKeepsAddress(after, steps, st.tmp.value);
  }

  // ----- Whole transactions -----

  /** Exactly which creations go through, and that they add one entry and change nothing else in the registry. */
  lemma CreationAccepted(env: FactoryEnv, c: Chain, sender: Addr, infos: seq<AssetInfo>, poolId: nat, address: Addr,
                         lpToken: Denom)
    ensures
      var r := CreateAndRegister(env, c, sender, infos, poolId, address, lpToken);
      && (r.Ok? <==>
           && env.feePaid && AllDifferent(infos)
           && (forall i :: 0 <= i < |infos| ==> infos[i].NativeToken? && env.denomExists(infos[i].denom))
           && PairKey(infos) !in c.registry.pairs
           && env.pairConfig.Some? && !env.pairConfig.value.isDisabled
           && (env.pairConfig.value.permissioned ==> sender == env.owner)
           && poolId !in c.pools && address !in c.contracts)
      && (r.Ok? ==>
           (r.value.registry.pairs == c.registry.pairs[PairKey(infos) := address]
            && r.value.contracts == c.contracts[address := PairInfo(address, lpToken, infos)]))
  {
    hide PairKey, FirstAssetFlaw;
    AssetsFlawless(env, infos);
    AssetsFlawless(Observe(env, c), infos);
  }

  /** Every entry is a contract trading assets with that key. */
  predicate Truthful(c: Chain) {
    forall k :: k in c.registry.pairs ==>
      c.registry.pairs[k] in c.contracts && PairKey(c.contracts[c.registry.pairs[k]].assetInfos) == k
  }

  predicate PlainKeys(c: Chain) {
    forall k :: k in c.registry.pairs ==> Plain(k)
  }

  /** The bank knows no denom with a byte below 2. */
  ghost predicate PlainDenoms(steps: seq<TxStep>) {
    forall i, denom :: 0 <= i < |steps| && steps[i].env.denomExists(denom) ==> Plain(denom)
  }

  lemma CreationKeepsTruth(env: FactoryEnv, c: Chain, sender: Addr, infos: seq<AssetInfo>, poolId: nat, address: Addr,
                           lpToken: Denom)
    requires Truthful(c) && CreateAndRegister(env, c, sender, infos, poolId, address, lpToken).Ok?
    ensures var c' := CreateAndRegister(env, c, sender, infos, poolId, address, lpToken).value;
      Truthful(c') && (PlainKeys(c) && (forall denom :: env.denomExists(denom) ==> Plain(denom)) ==> PlainKeys(c'))
  {
    hide PairKey, CreateAndRegister, Plain;
    CreationAccepted(env, c, sender, infos, poolId, address, lpToken);
    if forall denom :: env.denomExists(denom) ==> Plain(denom) { PlainNamesPlainKey(infos); }
  }

  lemma {:induction false} RegistryStaysTruthful(c: Chain, steps: seq<TxStep>)
    requires Truthful(c)
    ensures Truthful(RunTx(c, steps))
    ensures PlainKeys(c) && PlainDenoms(steps) ==> PlainKeys(RunTx(c, steps))
    decreases |steps|
  {
    if steps != [] {
      hide PairKey, CreateAndRegister, CheckAssetInfos, Plain;
      var n := |steps| - 1;
      RegistryStaysTruthful(c, steps[..n]);
      var before := RunTx(c, steps[..n]);
      match steps[n].tx {
        case NewPair(sender, infos, poolId, address, lpToken) =>
          if CreateAndRegister(steps[n].env, before, sender, infos, poolId, address, lpToken).Ok? {
            CreationKeepsTruth(steps[n].env, before, sender, infos, poolId, address, lpToken);
          }
        case _ =>
      }
    }
  }

  const EMPTY_CHAIN: Chain := Chain(Registry(map[], None), map[], map[])

  /** What contracts answer on a given chain. */
  function Answers(c: Chain): View {
    a => Lookup(c.contracts, a)
  }

  /** On a chain whose denoms have no byte below 2, after any history of creations, removals and outside deployments,
      n pages of the listing are the first n * limit registered pairs in key order, so walking lists them all. */
  lemma EveryPageWalkIsComplete(steps: seq<TxStep>, limit: Option<nat>, n: nat)
    requires PlainDenoms(steps)
    ensures
      var c := RunTx(EMPTY_CHAIN, steps);
      var pairs, view := c.registry.pairs, Answers(c);
      && Consistent(pairs, view)
      && Walk(pairs, view, None, limit, n) == Some(First(Listing(pairs, view), n * Limit(limit)))
      && (Limit(limit) >= 1 && n >= |pairs| ==> Walk(pairs, view, None, limit, n) == Some(Listing(pairs, view)))
  {
    hide PairKey, RunTx, Walk, Plain, Shadows;
    RegistryStaysTruthful(EMPTY_CHAIN, steps);
    var c := RunTx(EMPTY_CHAIN, steps);
    forall k, k' | k in c.registry.pairs && k' in c.registry.pairs ensures !Shadows(k, k') {
      PlainIsNotShadowed(k, k');
    }
    PageWalk(c.registry.pairs, Answers(c), limit, n);
  }

  /** After any history, the assets a registered contract trades, in any order, lead back to it and to no other. */
  lemma AnyOrderFindsThePair(steps: seq<TxStep>, k: Key, infos: seq<AssetInfo>)
    requires k in RunTx(EMPTY_CHAIN, steps).registry.pairs
    ensures
      var c := RunTx(EMPTY_CHAIN, steps);
      var pairs := c.registry.pairs;
      && pairs[k] in c.contracts
      && (multiset(infos) == multiset(c.contracts[pairs[k]].assetInfos) ==>
           QueryPair(pairs, Answers(c), infos) == Some(c.contracts[pairs[k]]))
      && (forall k' :: k' in pairs && pairs[k'] == pairs[k] ==> k' == k)
  {
    hide PairKey, RunTx;
    RegistryStaysTruthful(EMPTY_CHAIN, steps);
    var c := RunTx(EMPTY_CHAIN, steps);
    var own := c.contracts[c.registry.pairs[k]].assetInfos;
    if multiset(infos) == multiset(own) { PairKeyIgnoresOrder(infos, own); }
  }

  /** No contract serves two pools, and every pool's contract is known. */
  predicate OnePoolEach(c: Chain) {
    && (forall id :: id in c.pools ==> c.pools[id] in c.contracts)
    && (forall id, id' :: id in c.pools && id' in c.pools && c.pools[id] == c.pools[id'] ==> id == id')
  }

  lemma {:induction false} PoolsStaySeparate(c: Chain, steps: seq<TxStep>)
    requires OnePoolEach(c)
    ensures OnePoolEach(RunTx(c, steps))
    decreases |steps|
  {
    if steps != [] {
      hide PairKey, CheckAssetInfos;
      var n := |steps| - 1;
      PoolsStaySeparate(c, steps[..n]);
    }
  }

  /** What the factory announces is true: whatever the history, the id that an accepted reply sends to a pair contract
      is that of the one pool which the contract serves. So for a pair whose number at the DEX is that of its pool, the
      factory's SetPoolId is one of the steps that the theorems about the pair's runs admit. */
  lemma AnnouncedIdIsTrue(env: FactoryEnv, steps: seq<TxStep>, id: nat, poolId: Option<nat>, pr: PoolTypes.Pair,
                          s: PoolSpec.Step)
    requires
      var c := RunTx(EMPTY_CHAIN, steps);
      var r := Reply(Observe(env, c), c.registry, id, poolId);
      && pr.dexPoolId in c.pools && c.pools[pr.dexPoolId] == pr.addr
      && s.action.SetId? && r.Ok? && r.value.1 == Some(SetPoolId(pr.addr, s.action.id))
    ensures s.action.id == pr.dexPoolId && PoolRuns.TrueId(pr, s)
  {
    hide RunTx;
    PoolsStaySeparate(EMPTY_CHAIN, steps);
  }

  /** What becomes of two pairs of which one is the other with bytes moved across the boundary between the names: they
      name different assets; while the first is registered the second cannot be created, the query for the second
      answers with the first, and removing the second removes the first. Any other two different pairs keep out of
      each other's way: registering or removing one leaves the entry of the other alone. */
  lemma CollidingPairs(env: FactoryEnv, st: Registry, sender: Addr, one: Two, two: Two)
    requires PairKey(one) in st.pairs && multiset(BytesOf(one)) != multiset(BytesOf(two))
    ensures
      var entry := st.pairs[PairKey(one)];
      var created, removed := ExecuteCreatePair(env, st, sender, two), Deregister(env, st, sender, two);
      if Collide(one, two) then
        && (env.feePaid && CheckAssetInfos(env, two).None? ==> created == Err(PairWasCreated))
        && QueryPair(st.pairs, env.view, two) == env.view(entry)
        && (removed.Ok? ==> PairKey(one) !in removed.value.0.pairs)
      else
        && (created.Ok? ==> created.value.0.tmp != Some(PairKey(one)))
        && (removed.Ok? ==> PairKey(one) in removed.value.0.pairs && removed.value.0.pairs[PairKey(one)] == entry)
  {
    hide PairKey, CheckAssetInfos, Collide;
    PairKeysAgreeIff(one, two);
  }

  /** The smallest example: "ab" with "c", and "a" with "bc". */
  lemma CollisionExample()
    ensures Collide([NativeToken([97, 98]), NativeToken([99])], [NativeToken([97]), NativeToken([98, 99])])
  {
    var one, two := [NativeToken([97, 98]), NativeToken([99])], [NativeToken([97]), NativeToken([98, 99])];
    assert !Lt([99], [97, 98]) && !Lt([98, 99], [97]);
    assert Low(one) == [97, 98] && High(one) == [99] && Low(two) == [97] && High(two) == [98, 99];
    assert [97, 98][1..] + [99] == [98, 99];
  }

  const AB: seq<AssetInfo> := [NativeToken([97]), NativeToken([98])]
  const AB1: seq<AssetInfo> := [NativeToken([97]), NativeToken([98, 1])]

  /** Anyone may create pairs, and the bank knows the three denoms. */
  predicate OpenToAll(env: FactoryEnv) {
    && env.feePaid && env.pairConfig == Some(PairConfig(1, false, false))
    && env.denomExists([97]) && env.denomExists([98]) && env.denomExists([98, 1])
  }

  function Creations(env: FactoryEnv): seq<TxStep> {
    [TxStep(env, NewPair("user", AB, 1, "pair1", "lp1")), TxStep(env, NewPair("user", AB1, 2, "pair2", "lp2"))]
  }

  lemma CreationsAccepted(env: FactoryEnv)
    requires OpenToAll(env)
    ensures RunTx(EMPTY_CHAIN, Creations(env)).registry.pairs == map[PairKey(AB) := "pair1", PairKey(AB1) := "pair2"]
  {
    hide PairKey, CreateAndRegister, RunTx, Shadows;
    ExampleKeys();
    CreationAccepted(env, EMPTY_CHAIN, "user", AB, 1, "pair1", "lp1");
    var c1 := CreateAndRegister(env, EMPTY_CHAIN, "user", AB, 1, "pair1", "lp1").value;
    CreationPools(env, EMPTY_CHAIN, "user", AB, 1, "pair1", "lp1");
    CreationAccepted(env, c1, "user", AB1, 2, "pair2", "lp2");
    RunOfTwo(EMPTY_CHAIN, Creations(env)[0], Creations(env)[1]);
  }

  /** Two creations after which walking the pages one pair at a time misses a pair: "a" with "b", whose key is followed
      directly by that of "a" with "b" and a byte 1. */
  lemma PageWalkSkipExample(env: FactoryEnv)
    requires OpenToAll(env)
    ensures
      var c := RunTx(EMPTY_CHAIN, Creations(env));
      var pairs, view := c.registry.pairs, Answers(c);
      && |pairs| == 2 && Consistent(pairs, view)
      && Walk(pairs, view, None, Some(1), 2) != Some(Listing(pairs, view))
  {
    hide PairKey, Walk, Listing, NoShadows, RunTx, Creations, Shadows;
    CreationsAccepted(env);
    RegistryStaysTruthful(EMPTY_CHAIN, Creations(env));
    ExampleKeys();
    var c := RunTx(EMPTY_CHAIN, Creations(env));
    ShadowIsRegistered(c.registry.pairs, PairKey(AB), PairKey(AB1));
    ShadowBreaksWalk(c.registry.pairs, Answers(c));
  }

  lemma ShadowIsRegistered(pairs: Pairs, k: Key, k': Key)
    requires k in pairs && k' in pairs && Shadows(k, k')
    ensures !NoShadows(pairs.Keys)
  {
  }

  lemma CreationPools(env: FactoryEnv, c: Chain, sender: Addr, infos: seq<AssetInfo>, poolId: nat, address: Addr,
                      lpToken: Denom)
    requires CreateAndRegister(env, c, sender, infos, poolId, address, lpToken).Ok?
    ensures CreateAndRegister(env, c, sender, infos, poolId, address, lpToken).value.pools == c.pools[poolId := address]
  {
    hide PairKey, CheckAssetInfos;
  }

  lemma RunOfTwo(c: Chain, first: TxStep, second: TxStep)
    requires TryTx(c, first).Ok? && TryTx(TryTx(c, first).value, second).Ok?
    ensures RunTx(c, [first, second]) == TryTx(TryTx(c, first).value, second).value
  {
    hide TryTx;
    assert [first, second][..1] == [first] && [first][..0] == [];
    assert RunTx(c, [first]) == TryTx(RunTx(c, []), first).value;
  }

  lemma ExampleKeys()
    ensures PairKey(AB) != PairKey(AB1) && Shadows(PairKey(AB), PairKey(AB1))
  {
    hide PairKey;
    KeyOfTwo(AB);
    KeyOfTwo(AB1);
    assert !Lt([98], [97]) && !Lt([98, 1], [97]);
    assert PairKey(AB) == [97] + [98] == [97, 98] && PairKey(AB1) == [97] + [98, 1] == [97, 98, 1];
    assert [97, 98] + [1] == [97, 98, 1];
  }
}
