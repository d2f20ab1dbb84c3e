/** The messages the market contract accepts. */
module MarketMsg {
  import opened Wrappers
  import opened Host

  /** One row of `InitMsg.initial_balances`. */
  datatype InitialBalance = InitialBalance(address: string, amount: Uint128)

  datatype InitMsg = InitMsg(
    name: string,
    symbol: string,
    initialBalances: seq<InitialBalance>,
    ownerAddr: string,
    stableDenom: string,
    maxBorrowFactor: Decimal256,
    ancEmissionRate: Decimal256,
    aterraCodeId: U64)

  /** The hook a cw20 transfer may carry. */
  datatype Cw20HookMsg = RedeemStable

  /** A cw20 `Send` delivered to this contract. `msg` is the hook payload after
      decoding: `None` when the bytes do not decode to a `Cw20HookMsg`. */
  datatype Cw20ReceiveMsg = Cw20ReceiveMsg(sender: string, amount: Uint128, msg: Option<Cw20HookMsg>)

  /** The variants `execute` matches on. The arms for borrowing and reward claims are
      commented out in the contract, so this message type leaves those variants out. */
  datatype ExecuteMsg =
    | Receive(cw20: Cw20ReceiveMsg)
    | RegisterContracts(
        overseerContract: string,
        interestModel: string,
        distributionModel: string,
        collectorContract: string,
        distributorContract: string)
    | UpdateConfig(
        ownerAddr: Option<string>,
        newInterestModel: Option<string>,
        newDistributionModel: Option<string>,
        maxBorrowFactor: Option<Decimal256>)
    | ExecuteEpochOperations(
        depositRate: Decimal256,
        targetDepositRate: Decimal256,
        thresholdDepositRate: Decimal256,
        distributedInterest: Uint256)
    | DepositStable
    | RepayStable
    | RepayStableFromLiquidation(borrower: string, prevBalance: Uint256)
}
