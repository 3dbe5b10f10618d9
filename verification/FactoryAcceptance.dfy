/** Exactly what the factory accepts, what it changes and sends then, and which cause a refusal names. */
module FactoryAcceptance {
  import opened Outcome
  import opened Bank
  import opened FactoryKeys
  import opened FactoryPages
  import opened FactorySpec
  import opened FactoryRuns

  /** Different native assets that the bank knows. */
  predicate Listable(env: FactoryEnv, infos: seq<AssetInfo>) {
    && (forall i, j :: 0 <= i < j < |infos| ==> infos[i] != infos[j])
    && forall i :: 0 <= i < |infos| ==> infos[i].NativeToken? && env.denomExists(infos[i].denom)
  }

  lemma ListableIff(env: FactoryEnv, infos: seq<AssetInfo>)
    ensures CheckAssetInfos(env, infos).None? <==> Listable(env, infos)
  {
    hide FirstAssetFlaw;
    AssetsFlawless(env, infos);
  }

  /** Creation, up to the request for a pool: of assets not yet listed, for an accepted fee, by the owner if the kind
      of pair needs permission. The key is remembered, and the pool is asked for with the configured code and these
      assets. */
  lemma CreateAcceptedIff(env: FactoryEnv, st: Registry, sender: Addr, infos: seq<AssetInfo>)
    ensures
      var r := ExecuteCreatePair(env, st, sender, infos);
      && (r.Ok? <==>
           && env.feePaid && Listable(env, infos) && PairKey(infos) !in st.pairs
           && env.pairConfig.Some? && !env.pairConfig.value.isDisabled
           && (env.pairConfig.value.permissioned ==> sender == env.owner))
      && (r.Ok? ==>
           && r.value.0.pairs == st.pairs && r.value.0.tmp == Some(PairKey(infos))
           && r.value.1 == CreateCosmWasmPool(env.pairConfig.value.codeId, infos))
  {
    hide PairKey, CheckAssetInfos;
    ListableIff(env, infos);
  }

  lemma {:induction false} FirstAssetFlawIs(env: FactoryEnv, infos: seq<AssetInfo>) returns (i: nat)
    requires FirstAssetFlaw(env, infos).Some?
    ensures i < |infos| && AssetFlaw(env, infos[i]) == FirstAssetFlaw(env, infos)
    ensures forall j :: 0 <= j < i ==> infos[j].NativeToken? && env.denomExists(infos[j].denom)
    decreases |infos|
  {
    if AssetFlaw(env, infos[0]).Some? {
      i := 0;
    } else {
      var k := FirstAssetFlawIs(env, infos[1..]);
      i := k + 1;
      assert forall j :: 0 < j < i ==> infos[j] == infos[1..][j - 1];
    }
  }

  /** Why a list of assets is refused: a repetition, else the first asset that is a token or that the bank does not
      know. */
  ghost predicate BadAssets(env: FactoryEnv, infos: seq<AssetInfo>, e: FactoryError) {
    match e
    case DoublingAssets => exists i, j :: 0 <= i < j < |infos| && infos[i] == infos[j]
    case NonNativeToken => FirstBad(env, infos, true)
    case UnknownDenom => FirstBad(env, infos, false)
    case _ => false
  }

  ghost predicate FirstBad(env: FactoryEnv, infos: seq<AssetInfo>, token: bool) {
    && AllDifferent(infos)
    && exists i :: 0 <= i < |infos| && IsBad(env, infos[i], token) && AllGood(env, infos[..i])
  }

  predicate IsBad(env: FactoryEnv, a: AssetInfo, token: bool) {
    if token then a.Token? else a.NativeToken? && !env.denomExists(a.denom)
  }

  predicate AllGood(env: FactoryEnv, infos: seq<AssetInfo>) {
    forall i :: 0 <= i < |infos| ==> infos[i].NativeToken? && env.denomExists(infos[i].denom)
  }

  lemma AssetRefusal(env: FactoryEnv, infos: seq<AssetInfo>)
    requires CheckAssetInfos(env, infos).Some?
    ensures BadAssets(env, infos, CheckAssetInfos(env, infos).value)
  {
    hide FirstAssetFlaw;
    if AllDifferent(infos) {
      var i := FirstAssetFlawIs(env, infos);
      assert AllGood(env, infos[..i]);
      assert IsBad(env, infos[i], infos[i].Token?);
    }
  }

  /** A refused creation names its first cause. */
  lemma CreateRefusal(env: FactoryEnv, st: Registry, sender: Addr, infos: seq<AssetInfo>)
    requires ExecuteCreatePair(env, st, sender, infos).Err?
    ensures
      var known := PairKey(infos) in st.pairs;
      match ExecuteCreatePair(env, st, sender, infos).error
      case WrongFee => !env.feePaid
      case PairWasCreated => env.feePaid && Listable(env, infos) && known
      case PairConfigNotFound => env.feePaid && Listable(env, infos) && !known && env.pairConfig.None?
      case Unauthorized =>
        && env.feePaid && Listable(env, infos) && !known && env.pairConfig.Some?
        && env.pairConfig.value.permissioned && sender != env.owner
      case PairConfigDisabled =>
        && env.feePaid && Listable(env, infos) && !known && env.pairConfig.Some?
        && (env.pairConfig.value.permissioned ==> sender == env.owner) && env.pairConfig.value.isDisabled
      case e => env.feePaid && BadAssets(env, infos, e)
  {
    hide PairKey, CheckAssetInfos, Listable, BadAssets;
    ListableIff(env, infos);
    if CheckAssetInfos(env, infos).Some? {
      AssetRefusal(env, infos);
      FlawKinds(env, infos);
    }
  }

  lemma FlawKinds(env: FactoryEnv, infos: seq<AssetInfo>)
    requires CheckAssetInfos(env, infos).Some?
    ensures
      var e := CheckAssetInfos(env, infos).value;
      e.DoublingAssets? || e.NonNativeToken? || e.UnknownDenom?
  {
    hide FirstAssetFlaw;
    if AllDifferent(infos) { var i := FirstAssetFlawIs(env, infos); }
  }

  /** A pool's answer, which has number 1: accepted when a key is pending and free and the answer names a pool with a
      contract; that contract is then registered and told its pool. Number 2 is passed over, and there is no other. */
  lemma ReplyAcceptedIff(env: FactoryEnv, st: Registry, id: nat, poolId: Option<nat>)
    ensures
      var r := Reply(env, st, id, poolId);
      && (r.Ok? <==>
           || id == 2
           || (&& id == 1 && st.tmp.Some? && st.tmp.value !in st.pairs
               && poolId.Some? && env.contractOf(poolId.value).Some?))
      && (r.Ok? && id == 2 ==> r.value == (st, None))
      && (r.Ok? && id == 1 ==>
           var pair := env.contractOf(poolId.value).value;
           && r.value.0.pairs == st.pairs[st.tmp.value := pair] && r.value.0.tmp == st.tmp
           && r.value.1 == Some(SetPoolId(pair, poolId.value)))
      && (r.Err? ==>
           match r.error
           case FailedToParseReply => id != 1 && id != 2
           case NothingPending => id == 1 && st.tmp.None?
           case PairWasRegistered => id == 1 && st.tmp.Some? && st.tmp.value in st.pairs
           case NoPool => id == 1 && st.tmp.Some? && st.tmp.value !in st.pairs
           case _ => false)
  {
  }

  /** A removal: by the owner, of a listed pair; only its entry goes. With a generator set, the pair has to answer,
      and the generator is told to stop rewards for that pair's LP token. */
  lemma DeregisterAcceptedIff(env: FactoryEnv, st: Registry, sender: Addr, infos: seq<AssetInfo>)
    ensures
      var r, k := Deregister(env, st, sender, infos), PairKey(infos);
      && (r.Ok? <==>
           && Listable(env, infos) && sender == env.owner && k in st.pairs
           && (env.generator.Some? ==> env.view(st.pairs[k]).Some?))
      && (r.Ok? ==>
           && r.value.0.tmp == st.tmp && k !in r.value.0.pairs
           && (forall k' :: k' != k ==>
                && (k' in r.value.0.pairs <==> k' in st.pairs)
                && (k' in st.pairs ==> r.value.0.pairs[k'] == st.pairs[k']))
           && r.value.1 == (if env.generator.None? then None
                            else Some(DeactivatePool(env.generator.value, env.view(st.pairs[k]).value.liquidityToken))))
  {
    hide PairKey, CheckAssetInfos, Listable;
    ListableIff(env, infos);
  }

  /** A refused removal names its first cause. */
  lemma DeregisterRefusal(env: FactoryEnv, st: Registry, sender: Addr, infos: seq<AssetInfo>)
    requires Deregister(env, st, sender, infos).Err?
    ensures
      match Deregister(env, st, sender, infos).error
      case Unauthorized => Listable(env, infos) && sender != env.owner
      case PairNotFound => Listable(env, infos) && sender == env.owner && PairKey(infos) !in st.pairs
      case QueryFailed =>
        Listable(env, infos) && sender == env.owner && PairKey(infos) in st.pairs && env.generator.Some?
      case e => BadAssets(env, infos, e)
  {
    hide PairKey, CheckAssetInfos, Listable, BadAssets;
    ListableIff(env, infos);
    if CheckAssetInfos(env, infos).Some? {
      AssetRefusal(env, infos);
      FlawKinds(env, infos);
    }
  }

  /** Over every run, an entry that is gone was removed by whoever owned the factory at that step. */
  lemma OnlyOwnerRemoves(st: Registry, steps: seq<FactoryStep>, k: Key)
    requires k in st.pairs && k !in Run(st, steps).pairs
    ensures exists i ::
      && 0 <= i < |steps| && steps[i].action.Remove? && steps[i].action.sender == steps[i].env.owner
      && PairKey(steps[i].action.assetInfos) == k
  {
    hide Run, PairKey, CheckAssetInfos;
    if !Removed(st, steps, k) { EntryKeepsAddress(st, steps, k); }
    var i :| 0 <= i < |steps| && Removes(Run(st, steps[..i]), steps[i], k);
    assert steps[i].action.sender == steps[i].env.owner;
  }
}
