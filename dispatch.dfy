/** The contract's `execute` entry point and its cw20 receive hook. Each handler is
    an opaque outcome: the model names the handler that runs and the arguments it
    receives, and does not model what the handler then does. */
module Dispatch {
  import opened Wrappers
  import opened Host
  import opened MarketMsg
  import opened MarketState

  datatype ContractError =
    | Std(std: StdError)
    | Unauthorized
    | MissingRedeemStableHook

  /** A handler call with its arguments. `BorrowStable` and `ClaimRewards` are the
      handlers whose `execute` arms are disabled. */
  datatype Handler =
    | RegisterContracts(
        overseer: Addr, interestModel: Addr, distributionModel: Addr, collector: Addr, distributor: Addr)
    | UpdateConfig(
        env: Env, info: MessageInfo,
        newOwner: Option<Addr>, newInterestModel: Option<Addr>, newDistributionModel: Option<Addr>,
        newMaxBorrowFactor: Option<Decimal256>)
    | ExecuteEpochOperations(
        env: Env, info: MessageInfo,
        depositRate: Decimal256, targetDepositRate: Decimal256, thresholdDepositRate: Decimal256,
        distributedInterest: Uint256)
    | DepositStable(env: Env, info: MessageInfo)
    | RepayStable(env: Env, info: MessageInfo)
    | RepayStableFromLiquidation(env: Env, info: MessageInfo, borrower: Addr, prevBalance: Uint256)
    | RedeemStable(env: Env, redeemer: Addr, amount: Uint128)
    | BorrowStable(env: Env, info: MessageInfo, borrowAmount: Uint256, to: Option<Addr>)
    | ClaimRewards(env: Env, info: MessageInfo, to: Option<Addr>)

  function ValidateAddr(api: Api, raw: string): (r: Result<Addr, ContractError>)
    ensures r == if raw in api.canonical then Ok(Addr(raw)) else Err(Std(InvalidAddress(raw)))
  {
    match Validate(api, raw)
    case Ok(a) => Ok(a)
    case Err(e) => Err(Std(e))
  }

  function OptionalValidateAddr(api: Api, raw: Option<string>): (r: Result<Option<Addr>, ContractError>)
    ensures r == if raw.Some? && raw.value !in api.canonical then Err(Std(InvalidAddress(raw.value)))
                 else Ok(AsAddr(raw))
  {
    match OptionalValidate(api, raw)
    case Ok(a) => Ok(a)
    case Err(e) => Err(Std(e))
  }

  function CanonicalizeAddr(api: Api, raw: string): Result<CanonicalAddr, ContractError> {
    match Canonicalize(api, raw)
    case Ok(a) => Ok(a)
    case Err(e) => Err(Std(e))
  }

  /** `read_config`: the market config, or `NotFound` before `init` stored one. */
  function ReadConfig(stored: Option<Config>): Result<Config, ContractError> {
    match stored
    case Some(c) => Ok(c)
    case None => Err(Std(NotFound("config")))
  }

  // ---- reference definitions for argument validation ----

  /** The first raw address of `raws` the host does not accept, if any. */
  function FirstInvalid(api: Api, raws: seq<string>): (r: Option<string>)
    ensures r.None? <==> forall i :: 0 <= i < |raws| ==> raws[i] in api.canonical
    ensures r.Some? ==>
      exists k :: (0 <= k < |raws| && raws[k] == r.value && raws[k] !in api.canonical
                   && forall i :: 0 <= i < k ==> raws[i] in api.canonical)
  {
    if raws == [] then None
    else if raws[0] !in api.canonical then Some(raws[0])
    else
      var rest := FirstInvalid(api, raws[1..]);
      if rest.Some? then
        ghost var k :| 0 <= k < |raws[1..]| && raws[1..][k] == rest.value
          && raws[1..][k] !in api.canonical && forall i :: 0 <= i < k ==> raws[1..][i] in api.canonical;
        assert raws[k + 1] == rest.value;
        rest
      else rest
  }

  /** The addresses present among optional ones, in order. */
  function Present(raws: seq<Option<string>>): (r: seq<string>)
    ensures forall s :: s in r <==> Some(s) in raws
  {
    if raws == [] then []
    else
      var rest := Present(raws[1..]);
      assert forall s :: Some(s) in raws <==> raws[0] == Some(s) || Some(s) in raws[1..];
      if raws[0].Some? then [raws[0].value] + rest else rest
  }

  /** Searching the present addresses finds the first present address, in the order of
      `raws`, that the host rejects; there is none iff every present address is valid. */
  lemma {:induction false} FirstInvalidPresent(api: Api, raws: seq<Option<string>>)
    ensures FirstInvalid(api, Present(raws)).None? <==>
      forall i :: 0 <= i < |raws| && raws[i].Some? ==> raws[i].value in api.canonical
    ensures FirstInvalid(api, Present(raws)).Some? ==>
      exists k :: (0 <= k < |raws| && raws[k].Some? && raws[k].value !in api.canonical
                   && FirstInvalid(api, Present(raws)).value == raws[k].value
                   && forall i :: 0 <= i < k && raws[i].Some? ==> raws[i].value in api.canonical)
  {
    if raws != [] {
      var tail := raws[1..];
      FirstInvalidPresent(api, tail);
      var rest := Present(tail);
      assert forall i :: 1 <= i < |raws| ==> raws[i] == tail[i - 1];
      if raws[0].Some? {
        assert Present(raws) == [raws[0].value] + rest;
        assert ([raws[0].value] + rest)[1..] == rest;
        if raws[0].value in api.canonical && FirstInvalid(api, rest).Some? {
          var k :| 0 <= k < |tail| && tail[k].Some? && tail[k].value !in api.canonical
                   && FirstInvalid(api, rest).value == tail[k].value
                   && forall i :: 0 <= i < k && tail[i].Some? ==> tail[i].value in api.canonical;
          assert raws[k + 1] == tail[k];
        }
      } else {
        assert Present(raws) == rest;
        if FirstInvalid(api, rest).Some? {
          var k :| 0 <= k < |tail| && tail[k].Some? && tail[k].value !in api.canonical
                   && FirstInvalid(api, rest).value == tail[k].value
                   && forall i :: 0 <= i < k && tail[i].Some? ==> tail[i].value in api.canonical;
          assert raws[k + 1] == tail[k];
        }
      }
    }
  }

  /** Validating five addresses in turn finds the first invalid one. */
  lemma FirstInvalidFive(api: Api, a: string, b: string, c: string, d: string, e: string)
    ensures FirstInvalid(api, [a, b, c, d, e]) ==
      if a !in api.canonical then Some(a)
      else if b !in api.canonical then Some(b)
      else if c !in api.canonical then Some(c)
      else if d !in api.canonical then Some(d)
      else if e !in api.canonical then Some(e)
      else None
  {
    assert [e][1..] == [];
    assert FirstInvalid(api, [e]) == if e !in api.canonical then Some(e) else None;
    assert [d, e][1..] == [e];
    assert FirstInvalid(api, [d, e]) ==
      if d !in api.canonical then Some(d) else FirstInvalid(api, [e]);
    assert [c, d, e][1..] == [d, e];
    assert FirstInvalid(api, [c, d, e]) ==
      if c !in api.canonical then Some(c) else FirstInvalid(api, [d, e]);
    assert [b, c, d, e][1..] == [c, d, e];
    assert FirstInvalid(api, [b, c, d, e]) ==
      if b !in api.canonical then Some(b) else FirstInvalid(api, [c, d, e]);
    assert [a, b, c, d, e][1..] == [b, c, d, e];
  }

  /** Validating three optional addresses in turn finds the first invalid present one. */
  lemma PresentThree(api: Api, a: Option<string>, b: Option<string>, c: Option<string>)
    ensures FirstInvalid(api, Present([a, b, c])) ==
      if a.Some? && a.value !in api.canonical then Some(a.value)
      else if b.Some? && b.value !in api.canonical then Some(b.value)
      else if c.Some? && c.value !in api.canonical then Some(c.value)
      else None
  {
  }

  function AsAddr(raw: Option<string>): Option<Addr> {
    match raw
    case Some(s) => Some(Addr(s))
    case None => None
  }

  // ---- the entry points ----

  /** `receive_cw20`: the hook is decoded first, then the sending token contract is
      checked against the registered aterra contract, and only then is `redeem_stable`
      called, with the cw20 sender as redeemer and the cw20 amount. */
  function ReceiveCw20(api: Api, stored: Option<Config>, env: Env, info: MessageInfo, cw20: Cw20ReceiveMsg)
    : (r: Result<Handler, ContractError>)
    ensures cw20.msg != Some(Cw20HookMsg.RedeemStable) ==> r == Err(MissingRedeemStableHook)
    ensures r.Ok? <==>
      && cw20.msg == Some(Cw20HookMsg.RedeemStable)
      && stored.Some?
      && info.sender in api.canonical
      && api.canonical[info.sender] == stored.value.aterraContract
      && cw20.sender in api.canonical
    ensures r.Ok? ==> r.value == Handler.RedeemStable(env, Addr(cw20.sender), cw20.amount)
    ensures
      && cw20.msg == Some(Cw20HookMsg.RedeemStable)
      && stored.Some?
      && info.sender in api.canonical
      && api.canonical[info.sender] != stored.value.aterraContract
      ==> r == Err(Unauthorized)
    ensures cw20.msg == Some(Cw20HookMsg.RedeemStable) && stored.None? ==> r == Err(Std(NotFound("config")))
    ensures
      && cw20.msg == Some(Cw20HookMsg.RedeemStable)
      && stored.Some?
      && info.sender !in api.canonical
      ==> r == Err(Std(InvalidAddress(info.sender)))
    ensures
      && cw20.msg == Some(Cw20HookMsg.RedeemStable)
      && stored.Some?
      && info.sender in api.canonical
      && api.canonical[info.sender] == stored.value.aterraContract
      && cw20.sender !in api.canonical
      ==> r == Err(Std(InvalidAddress(cw20.sender)))
  {
    match cw20.msg
    case Some(RedeemStable) =>
      var config :- ReadConfig(stored);
      var sender :- CanonicalizeAddr(api, info.sender);
      if sender != config.aterraContract then Err(Unauthorized)
      else
        var redeemer :- ValidateAddr(api, cw20.sender);
        Ok(Handler.RedeemStable(env, redeemer, cw20.amount))
    case None => Err(MissingRedeemStableHook)
  }

  /** `execute`: each message variant goes to its one handler, after the addresses
      it carries are validated in their order in the message. */
  function Execute(api: Api, stored: Option<Config>, env: Env, info: MessageInfo, msg: ExecuteMsg)
    : (r: Result<Handler, ContractError>)
    ensures msg.Receive? ==> r == ReceiveCw20(api, stored, env, info, msg.cw20)
    ensures msg.RegisterContracts? ==>
      var raws := [msg.overseerContract, msg.interestModel, msg.distributionModel,
                   msg.collectorContract, msg.distributorContract];
      r == match FirstInvalid(api, raws)
           case Some(bad) => Err(Std(InvalidAddress(bad)))
           case None => Ok(Handler.RegisterContracts(
             Addr(msg.overseerContract), Addr(msg.interestModel), Addr(msg.distributionModel),
             Addr(msg.collectorContract), Addr(msg.distributorContract)))
    ensures msg.UpdateConfig? ==>
      var raws := Present([msg.ownerAddr, msg.newInterestModel, msg.newDistributionModel]);
      r == match FirstInvalid(api, raws)
           case Some(bad) => Err(Std(InvalidAddress(bad)))
           case None => Ok(Handler.UpdateConfig(
             env, info, AsAddr(msg.ownerAddr), AsAddr(msg.newInterestModel),
             AsAddr(msg.newDistributionModel), msg.maxBorrowFactor))
    ensures msg.ExecuteEpochOperations? ==> r == Ok(Handler.ExecuteEpochOperations(
      env, info, msg.depositRate, msg.targetDepositRate, msg.thresholdDepositRate, msg.distributedInterest))
    ensures msg.DepositStable? ==> r == Ok(Handler.DepositStable(env, info))
    ensures msg.RepayStable? ==> r == Ok(Handler.RepayStable(env, info))
    ensures msg.RepayStableFromLiquidation? ==>
      r == if msg.borrower in api.canonical
           then Ok(Handler.RepayStableFromLiquidation(env, info, Addr(msg.borrower), msg.prevBalance))
           else Err(Std(InvalidAddress(msg.borrower)))
    ensures r.Ok? ==> !r.value.BorrowStable? && !r.value.ClaimRewards?
  {
    match msg
    case Receive(cw20) => ReceiveCw20(api, stored, env, info, cw20)
    case RegisterContracts(overseer, interest, distribution, collector, distributor) =>
      FirstInvalidFive(api, overseer, interest, distribution, collector, distributor);
      var o :- ValidateAddr(api, overseer);
      var i :- ValidateAddr(api, interest);
      var d :- ValidateAddr(api, distribution);
      var c :- ValidateAddr(api, collector);
      var ds :- ValidateAddr(api, distributor);
      Ok(Handler.RegisterContracts(o, i, d, c, ds))
    case UpdateConfig(owner, interest, distribution, maxBorrowFactor) =>
      PresentThree(api, owner, interest, distribution);
      var o :- OptionalValidateAddr(api, owner);
      var i :- OptionalValidateAddr(api, interest);
      var d :- OptionalValidateAddr(api, distribution);
      Ok(Handler.UpdateConfig(env, info, o, i, d, maxBorrowFactor))
    case ExecuteEpochOperations(depositRate, target, threshold, distributed) =>
      Ok(Handler.ExecuteEpochOperations(env, info, depositRate, target, threshold, distributed))
    case DepositStable => Ok(Handler.DepositStable(env, info))
    case RepayStable => Ok(Handler.RepayStable(env, info))
    case RepayStableFromLiquidation(borrower, prevBalance) =>
      var b :- ValidateAddr(api, borrower);
      Ok(Handler.RepayStableFromLiquidation(env, info, b, prevBalance))
  }

  /** Until the aterra contract is registered (its address is still the empty one
      `init` stores), no cw20 hook reaches `redeem_stable`: a decodable hook fails
      before redeem is called. */
  lemma RedeemLockedUntilRegistered(
    api: Api, stored: Option<Config>, env: Env, info: MessageInfo, cw20: Cw20ReceiveMsg)
    requires NoEmptyCanonical(api)
    requires stored.Some? ==> stored.value.aterraContract == EmptyAddr
    ensures Execute(api, stored, env, info, Receive(cw20)).Err?
  {
  }
}
