/** The records `init` stores: the token-style config of the older API generation,
    the market config, and the pool state with its genesis values. */
module MarketState {
  import opened Wrappers
  import opened Host
  import opened MarketMsg

  /** The record `config_set` writes (older API generation). */
  datatype TokenConfig = TokenConfig(name: string, symbol: string, owner: string)

  /** The record `store_config` writes. */
  datatype Config = Config(
    contractAddr: CanonicalAddr,
    ownerAddr: CanonicalAddr,
    aterraContract: CanonicalAddr,
    overseerContract: CanonicalAddr,
    interestModel: CanonicalAddr,
    distributionModel: CanonicalAddr,
    collectorContract: CanonicalAddr,
    distributorContract: CanonicalAddr,
    stableDenom: string,
    maxBorrowFactor: Decimal256)

  /** The pool state `store_state` writes. */
  datatype State = State(
    totalLiabilities: Decimal256,
    totalReserves: Decimal256,
    lastInterestUpdated: U64,
    lastRewardUpdated: U64,
    globalInterestIndex: Decimal256,
    globalRewardIndex: Decimal256,
    ancEmissionRate: Decimal256,
    prevAterraSupply: Uint256,
    prevExchangeRate: Decimal256)

  /** No collaborator contract has been registered yet: every such address is empty. */
  predicate Unregistered(c: Config) {
    && c.aterraContract == EmptyAddr
    && c.overseerContract == EmptyAddr
    && c.interestModel == EmptyAddr
    && c.distributionModel == EmptyAddr
    && c.collectorContract == EmptyAddr
    && c.distributorContract == EmptyAddr
  }

  /** Nothing is owed to the pool and nothing is set aside from it. */
  predicate NothingOutstanding(s: State) {
    s.totalLiabilities == DecimalZero && s.totalReserves == DecimalZero
  }

  /** The interest index is the identity multiplier and no reward has accrued. */
  predicate IndicesAtOrigin(s: State) {
    s.globalInterestIndex == DecimalOne && s.globalRewardIndex == DecimalZero
  }

  /** Interest and rewards have both been brought up to block `height`. */
  predicate AccruedTo(s: State, height: U64) {
    s.lastInterestUpdated == height && s.lastRewardUpdated == height
  }

  /** The previous-epoch snapshot is that of an empty pool at the bootstrap exchange rate 1. */
  predicate EpochSnapshotAtBootstrap(s: State) {
    s.prevAterraSupply == 0 && s.prevExchangeRate == DecimalOne
  }

  /** The market config `init` stores: the contract's and owner's addresses are
      canonicalised (in that order; the first that fails is the error), every
      collaborator address is empty, and the denomination and borrow factor are
      taken from the message. */
  function GenesisConfig(api: Api, env: Env, msg: InitMsg): (r: Result<Config, StdError>)
    ensures r.Ok? <==> env.contractAddress in api.canonical && msg.ownerAddr in api.canonical
    ensures r.Err? ==> r.error == InvalidAddress(
      if env.contractAddress !in api.canonical then env.contractAddress else msg.ownerAddr)
    ensures r.Ok? ==>
      && Unregistered(r.value)
      && r.value.contractAddr == api.canonical[env.contractAddress]
      && r.value.ownerAddr == api.canonical[msg.ownerAddr]
      && r.value.stableDenom == msg.stableDenom
      && r.value.maxBorrowFactor == msg.maxBorrowFactor
  {
    var contractAddr :- Canonicalize(api, env.contractAddress);
    var ownerAddr :- Canonicalize(api, msg.ownerAddr);
    Ok(Config(
      contractAddr := contractAddr,
      ownerAddr := ownerAddr,
      aterraContract := EmptyAddr,
      overseerContract := EmptyAddr,
      interestModel := EmptyAddr,
      distributionModel := EmptyAddr,
      collectorContract := EmptyAddr,
      distributorContract := EmptyAddr,
      stableDenom := msg.stableDenom,
      maxBorrowFactor := msg.maxBorrowFactor))
  }

  /** The pool state `init` stores at block `height`. */
  function GenesisState(height: U64, ancEmissionRate: Decimal256): (s: State)
    ensures NothingOutstanding(s)
    ensures IndicesAtOrigin(s)
    ensures AccruedTo(s, height)
    ensures EpochSnapshotAtBootstrap(s)
    ensures s.ancEmissionRate == ancEmissionRate
  {
    State(
      totalLiabilities := DecimalZero,
      totalReserves := DecimalZero,
      lastInterestUpdated := height,
      lastRewardUpdated := height,
      globalInterestIndex := DecimalOne,
      globalRewardIndex := DecimalZero,
      ancEmissionRate := ancEmissionRate,
      prevAterraSupply := 0,
      prevExchangeRate := DecimalOne)
  }

  /** The pool-state invariant the market keeps for a cash balance `cash`: reserves
      never exceed what the pool holds plus what it is owed, and the interest index
      never falls below 1. */
  predicate PoolInvariant(s: State, cash: Uint256) {
    && s.totalReserves <= cash * DECIMAL_FRACTIONAL + s.totalLiabilities
    && s.globalInterestIndex >= DecimalOne
  }

  /** The genesis state meets the pool invariant whatever the pool's cash balance. This is
      only the base case: the operations that change reserves, liabilities or the index
      are not part of this model, so no lemma here shows the invariant is preserved. */
  lemma GenesisKeepsPoolInvariant(height: U64, ancEmissionRate: Decimal256, cash: Uint256)
    ensures PoolInvariant(GenesisState(height, ancEmissionRate), cash)
  {
  }
}
