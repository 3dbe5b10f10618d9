/** The factory contract as a mutable object, proved to do what FactorySpec says. */
module FactoryContract {
  import opened Outcome
  import opened Bank
  import opened FactoryKeys
  import opened FactoryPages
  import Spec = FactorySpec

  class Factory {
    var pairs: Pairs
    var tmpPairInfo: Option<Key>

    function State(): Spec.Registry
      reads this
    {
      Spec.Registry(pairs, tmpPairInfo)
    }

    constructor ()
      ensures State() == Spec.Registry(map[], None)
    {
      pairs, tmpPairInfo := map[], None;
    }

    /** check_asset_infos: no asset twice, then the first asset that is not a native token known to the bank. */
    method CheckAssetInfos(env: Spec.FactoryEnv, infos: seq<AssetInfo>) returns (error: Option<Spec.FactoryError>)
      ensures error == Spec.CheckAssetInfos(env, infos)
      ensures error.None? <==>
        && Spec.AllDifferent(infos)
        && forall i :: 0 <= i < |infos| ==> infos[i].NativeToken? && env.denomExists(infos[i].denom)
    {
      if !Spec.AllDifferent(infos) { return Some(Spec.DoublingAssets); }
      assert infos[0..] == infos;
      for i := 0 to |infos|
        invariant Spec.FirstAssetFlaw(env, infos) == Spec.FirstAssetFlaw(env, infos[i..])
        invariant forall j :: 0 <= j < i ==> infos[j].NativeToken? && env.denomExists(infos[j].denom)
      {
        assert infos[i..][0] == infos[i] && infos[i..][1..] == infos[i + 1..];
        match infos[i]
        case NativeToken(denom) => if !env.denomExists(denom) { return Some(Spec.UnknownDenom); }
        case Token(_) => return Some(Spec.NonNativeToken);
      }
      return None;
    }

    /** Remembers the key and asks for a pool. */
    method ExecuteCreatePair(env: Spec.FactoryEnv, sender: Addr, infos: seq<AssetInfo>)
      returns (r: Result<Spec.FactoryMsg, Spec.FactoryError>)
      modifies this`tmpPairInfo
      ensures
        var spec := Spec.ExecuteCreatePair(env, old(State()), sender, infos);
        && (r.Ok? ==> spec == Result.Ok((State(), r.value)))
        && (r.Err? ==> spec == Err(r.error) && State() == old(State()))
    {
      if !env.feePaid { return Err(Spec.WrongFee); }
      var flaw := CheckAssetInfos(env, infos);
      if flaw.Some? { return Err(flaw.value); }
      if PairKey(infos) in pairs { return Err(Spec.PairWasCreated); }
      if env.pairConfig.None? { return Err(Spec.PairConfigNotFound); }
      var pairConfig := env.pairConfig.value;
      if pairConfig.permissioned && sender != env.owner { return Err(Spec.Unauthorized); }
      if pairConfig.isDisabled { return Err(Spec.PairConfigDisabled); }
      tmpPairInfo := Some(PairKey(infos));
      return Ok(Spec.CreateCosmWasmPool(pairConfig.codeId, infos));
    }

    /** Registers the new pair, or passes over a pair that did not take its pool id. */
    method Reply(env: Spec.FactoryEnv, id: nat, poolId: Option<nat>)
      returns (r: Result<Option<Spec.FactoryMsg>, Spec.FactoryError>)
      modifies this`pairs
      ensures
        var spec := Spec.Reply(env, old(State()), id, poolId);
        && (r.Ok? ==> spec == Result.Ok((State(), r.value)))
        && (r.Err? ==> spec == Err(r.error) && State() == old(State()))
    {
      match id {
        case 1 =>
          if tmpPairInfo.None? { return Err(Spec.NothingPending); }
          var key := tmpPairInfo.value;
          if key in pairs { return Err(Spec.PairWasRegistered); }
          if poolId.None? { return Err(Spec.NoPool); }
          var pair := env.contractOf(poolId.value);
          if pair.None? { return Err(Spec.NoPool); }
          pairs := pairs[key := pair.value];
          return Ok(Some(Spec.SetPoolId(pair.value, poolId.value)));
        case 2 => return Ok(None);
        case _ => return Err(Spec.FailedToParseReply);
      }
    }

    /** Removes the entry of the listed assets; a failing query undoes the removal. */
    method Deregister(env: Spec.FactoryEnv, sender: Addr, infos: seq<AssetInfo>)
      returns (r: Result<Option<Spec.FactoryMsg>, Spec.FactoryError>)
      modifies this`pairs
      ensures
        var spec := Spec.Deregister(env, old(State()), sender, infos);
        && (r.Ok? ==> spec == Result.Ok((State(), r.value)))
        && (r.Err? ==> spec == Err(r.error) && State() == old(State()))
    {
      var flaw := CheckAssetInfos(env, infos);
      if flaw.Some? { return Err(flaw.value); }
      if sender != env.owner { return Err(Spec.Unauthorized); }
      if PairKey(infos) !in pairs { return Err(Spec.PairNotFound); }
      var before := pairs;
      var pairAddr := pairs[PairKey(infos)];
      pairs := pairs - {PairKey(infos)};
      if env.generator.None? { return Ok(None); }
      var info := env.view(pairAddr);
      if info.None? {
        pairs := before;
        return Err(Spec.QueryFailed);
      }
      return Ok(Some(Spec.DeactivatePool(env.generator.value, info.value.liquidityToken)));
    }

    /** One entry point called from outside. */
    method Transact(s: Spec.FactoryStep)
      modifies this
      ensures State() == Spec.Exec(old(State()), s)
    {
      match s.action
      case Create(sender, infos) => var _ := ExecuteCreatePair(s.env, sender, infos);
      case Answer(id, poolId) => var _ := Reply(s.env, id, poolId);
      case Remove(sender, infos) => var _ := Deregister(s.env, sender, infos);
    }
  }
}
