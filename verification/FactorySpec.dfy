/** What each entry point of the factory does to its pair registry, or which error it reports. */
module FactorySpec {
  import opened Outcome
  import opened Bank
  import opened FactoryKeys
  import opened FactoryPages

  const INSTANTIATE_PAIR_REPLY_ID: nat := 1
  const SET_POOL_ID_FAILED_REPLY_ID: nat := 2

  datatype PairConfig = PairConfig(codeId: nat, permissioned: bool, isDisabled: bool)

  /** The registry, and the key of the pair being created. */
  datatype Registry = Registry(pairs: Pairs, tmp: Option<Key>)

  datatype FactoryMsg =
    | CreateCosmWasmPool(codeId: nat, assetInfos: seq<AssetInfo>)
    | SetPoolId(pair: Addr, poolId: nat)
    | DeactivatePool(generator: Addr, lpToken: Denom)

  datatype FactoryError =
    | WrongFee | DoublingAssets | NonNativeToken | UnknownDenom | PairWasCreated | PairConfigNotFound | Unauthorized
    | PairConfigDisabled | NothingPending | PairWasRegistered | NoPool | FailedToParseReply | PairNotFound | QueryFailed

  /** Configuration of the factory, and answers of the chain. feePaid: the one coin sent is an accepted creation fee. */
  datatype FactoryEnv = FactoryEnv(owner: Addr, generator: Option<Addr>, pairConfig: Option<PairConfig>, feePaid: bool,
                                   denomExists: seq<Byte> -> bool, contractOf: nat -> Option<Addr>, view: View)

  type Effect<T> = Result<(Registry, T), FactoryError>

  predicate AllDifferent(infos: seq<AssetInfo>) {
    forall i, j :: 0 <= i < j < |infos| ==> infos[i] != infos[j]
  }

  function AssetFlaw(env: FactoryEnv, a: AssetInfo): Option<FactoryError> {
    match a
    case NativeToken(denom) => if env.denomExists(denom) then None else Some(UnknownDenom)
    case Token(_) => Some(NonNativeToken)
  }

  function FirstAssetFlaw(env: FactoryEnv, infos: seq<AssetInfo>): Option<FactoryError> {
    if infos == [] then None else
    var flaw := AssetFlaw(env, infos[0]);
    if flaw.Some? then flaw else FirstAssetFlaw(env, infos[1..])
  }

  function CheckAssetInfos(env: FactoryEnv, infos: seq<AssetInfo>): Option<FactoryError> {
    if !AllDifferent(infos) then Some(DoublingAssets) else FirstAssetFlaw(env, infos)
  }

  function ExecuteCreatePair(env: FactoryEnv, st: Registry, sender: Addr, infos: seq<AssetInfo>): Effect<FactoryMsg> {
    var flaw := CheckAssetInfos(env, infos);
    if !env.feePaid then Err(WrongFee)
    else if flaw.Some? then Err(flaw.value)
    else if PairKey(infos) in st.pairs then Err(PairWasCreated)
    else if env.pairConfig.None? then Err(PairConfigNotFound)
    else if env.pairConfig.value.permissioned && sender != env.owner then Err(Unauthorized)
    else if env.pairConfig.value.isDisabled then Err(PairConfigDisabled)
    else Ok((st.(tmp := Some(PairKey(infos))), CreateCosmWasmPool(env.pairConfig.value.codeId, infos)))
  }

  /** The created pool's answer registers its contract under the pending key. */
  function Reply(env: FactoryEnv, st: Registry, id: nat, poolId: Option<nat>): Effect<Option<FactoryMsg>> {
    if id == INSTANTIATE_PAIR_REPLY_ID then
      if st.tmp.None? then Err(NothingPending)
      else if st.tmp.value in st.pairs then Err(PairWasRegistered)
      else if poolId.None? || env.contractOf(poolId.value).None? then Err(NoPool)
      else
        var pair := env.contractOf(poolId.value).value;
        Ok((st.(pairs := st.pairs[st.tmp.value := pair]), Some(SetPoolId(pair, poolId.value))))
    else if id == SET_POOL_ID_FAILED_REPLY_ID then Ok((st, None))
    else Err(FailedToParseReply)
  }

  function Deregister(env: FactoryEnv, st: Registry, sender: Addr, infos: seq<AssetInfo>): Effect<Option<FactoryMsg>> {
    var flaw := CheckAssetInfos(env, infos);
    if flaw.Some? then Err(flaw.value)
    else if sender != env.owner then Err(Unauthorized)
    else if PairKey(infos) !in st.pairs then Err(PairNotFound)
    else
      var st' := st.(pairs := st.pairs - {PairKey(infos)});
      var info := env.view(st.pairs[PairKey(infos)]);
      if env.generator.None? then Ok((st', None))
      else if info.None? then Err(QueryFailed)
      else Ok((st', Some(DeactivatePool(env.generator.value, info.value.liquidityToken))))
  }

  /** The contract that answers for a list of assets. */
  function QueryPair(pairs: Pairs, view: View, infos: seq<AssetInfo>): Option<PairInfo> {
    if PairKey(infos) in pairs then view(pairs[PairKey(infos)]) else None
  }

  // ----- Runs of single entry points, in any order -----

  datatype FactoryAction =
    | Create(sender: Addr, assetInfos: seq<AssetInfo>)
    | Answer(id: nat, poolId: Option<nat>)
    | Remove(sender: Addr, assetInfos: seq<AssetInfo>)

  datatype FactoryStep = FactoryStep(env: FactoryEnv, action: FactoryAction)

  function StateOf<T>(r: Effect<T>): Result<Registry, FactoryError> {
    if r.Ok? then Ok(r.value.0) else Err(r.error)
  }

  function Attempt(st: Registry, s: FactoryStep): Result<Registry, FactoryError> {
    match s.action
    case Create(sender, infos) => StateOf(ExecuteCreatePair(s.env, st, sender, infos))
    case Answer(id, poolId) => StateOf(Reply(s.env, st, id, poolId))
    case Remove(sender, infos) => StateOf(Deregister(s.env, st, sender, infos))
  }

  function Exec(st: Registry, s: FactoryStep): Registry {
    var r := Attempt(st, s);
    if r.Ok? then r.value else st
  }

  function Run(st: Registry, steps: seq<FactoryStep>): Registry {
    if steps == [] then st else Exec(Run(st, steps[..|steps| - 1]), steps[|steps| - 1])
  }

  // ----- Whole transactions -----

  /** The registry, the pair contracts on chain, and the contract of each pool. */
  datatype Chain = Chain(registry: Registry, contracts: map<Addr, PairInfo>, pools: map<nat, Addr>)

  function Lookup<K, V>(m: map<K, V>, k: K): Option<V> {
    if k in m then Some(m[k]) else None
  }

  function Observe(env: FactoryEnv, c: Chain): FactoryEnv {
    env.(contractOf := id => Lookup(c.pools, id), view := a => Lookup(c.contracts, a))
  }

  datatype Tx =
    /** A user creates a pair; the chain gives the new pool an unused id and its contract an unused address. */
    | NewPair(sender: Addr, assetInfos: seq<AssetInfo>, poolId: nat, address: Addr, lpToken: Denom)
    /** A pool made without the factory. */
    | Deploy(poolId: nat, address: Addr, info: PairInfo)
    | Unlist(sender: Addr, assetInfos: seq<AssetInfo>)

  datatype TxStep = TxStep(env: FactoryEnv, tx: Tx)

  /** Creation, instantiation of the contract with the same assets, and the reply, all or nothing. */
  function CreateAndRegister(env: FactoryEnv, c: Chain, sender: Addr, infos: seq<AssetInfo>, poolId: nat,
                             address: Addr, lpToken: Denom)
    : Result<Chain, FactoryError>
  {
    var created := ExecuteCreatePair(Observe(env, c), c.registry, sender, infos);
    if created.Err? then Err(created.error)
    else if poolId in c.pools || address in c.contracts then Err(NoPool) else
    var info := PairInfo(address, lpToken, created.value.1.assetInfos);
    var c' := Chain(created.value.0, c.contracts[address := info], c.pools[poolId := address]);
    var replied := Reply(Observe(env, c'), c'.registry, INSTANTIATE_PAIR_REPLY_ID, Some(poolId));
    if replied.Err? then Err(replied.error) else Ok(c'.(registry := replied.value.0))
  }

  function TryTx(c: Chain, s: TxStep): Result<Chain, FactoryError> {
    match s.tx
    case NewPair(sender, infos, poolId, address, lpToken) =>
      CreateAndRegister(s.env, c, sender, infos, poolId, address, lpToken)
    case Deploy(poolId, address, info) =>
      if poolId in c.pools || address in c.contracts then Err(NoPool)
      else Ok(c.(contracts := c.contracts[address := info], pools := c.pools[poolId := address]))
    case Unlist(sender, infos) =>
      var r := Deregister(Observe(s.env, c), c.registry, sender, infos);
      if r.Ok? then Ok(c.(registry := r.value.0)) else Err(r.error)
  }

  function RunTx(c: Chain, steps: seq<TxStep>): Chain {
    if steps == [] then c else
    var n := |steps| - 1;
    var before := RunTx(c, steps[..n]);
    var r := TryTx(before, steps[n]);
    if r.Ok? then r.value else before
  }
}
