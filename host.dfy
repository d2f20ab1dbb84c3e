/** The parts of the host library (cosmwasm) that the market contract's
    entry points touch: bounded integers, fixed-point decimals, addresses,
    the environment of a call, and address validation through `deps.api`. */
module Host {
  import opened Wrappers

  const U64_LIMIT: int := 0x1_0000_0000_0000_0000
  const U128_LIMIT: int := 0x1_0000_0000_0000_0000_0000_0000_0000_0000
  const U256_LIMIT: int := 0x1_0000_0000_0000_0000_0000_0000_0000_0000_0000_0000_0000_0000_0000_0000_0000_0000_0000_0000_0000_0000

  type U8 = x: int | 0 <= x < 256
  type U64 = x: int | 0 <= x < U64_LIMIT
  type Uint128 = x: int | 0 <= x < U128_LIMIT
  type Uint256 = x: int | 0 <= x < U256_LIMIT

  /** A Decimal256 is kept as its atomics: the value times 10^18. */
  const DECIMAL_FRACTIONAL: int := 1_000_000_000_000_000_000
  type Decimal256 = x: int | 0 <= x < U256_LIMIT

  const DecimalZero: Decimal256 := 0
  const DecimalOne: Decimal256 := DECIMAL_FRACTIONAL

  /** The canonical (byte) form of an address; `CanonicalAddr::from(vec![])` is the empty one. */
  type CanonicalAddr = seq<U8>
  const EmptyAddr: CanonicalAddr := []

  /** A human-readable address that passed `addr_validate`; an opaque identity compared by equality. */
  datatype Addr = Addr(raw: string)

  datatype Coin = Coin(denom: string, amount: Uint128)

  /** The block and contract a call runs in. `messageSender` is the sender as the
      older API generation reports it inside the environment (used by `init`). */
  datatype Env = Env(blockHeight: U64, contractAddress: string, messageSender: string)

  /** The sender and attached funds of an `execute` call. */
  datatype MessageInfo = MessageInfo(sender: string, funds: seq<Coin>)

  datatype StdError =
    | InvalidAddress(raw: string)
    | NotFound(kind: string)

  /** The host's address book: the raw addresses it accepts, with their canonical forms.
      Validation and canonicalisation fail exactly on the raw addresses it does not know. */
  datatype Api = Api(canonical: map<string, CanonicalAddr>)

  /** `deps.api.addr_canonicalize` (and the older `canonical_address`). */
  function Canonicalize(api: Api, raw: string): Result<CanonicalAddr, StdError> {
    if raw in api.canonical then Ok(api.canonical[raw]) else Err(InvalidAddress(raw))
  }

  /** `deps.api.addr_validate`. */
  function Validate(api: Api, raw: string): Result<Addr, StdError> {
    if raw in api.canonical then Ok(Addr(raw)) else Err(InvalidAddress(raw))
  }

  /** `optional_addr_validate`: an absent address is accepted as absent. */
  function OptionalValidate(api: Api, raw: Option<string>): Result<Option<Addr>, StdError> {
    match raw
    case None => Ok(None)
    case Some(s) => var a :- Validate(api, s); Ok(Some(a))
  }

  /** The host never hands out the empty canonical address for a valid raw address. */
  ghost predicate NoEmptyCanonical(api: Api) {
    forall raw :: raw in api.canonical ==> api.canonical[raw] != EmptyAddr
  }
}
