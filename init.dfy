/** The contract's `init` entry point: it writes the initial balances one row at a
    time, stores the two config records and the genesis pool state, and asks the host
    to instantiate the share token, with a reply once that succeeds. */
module Instantiate {
  import opened Wrappers
  import opened Host
  import opened MarketMsg
  import opened MarketState
  import opened ShareToken

  /** When the host sends the reply for a submessage. */
  datatype ReplyOn = ReplyAlways | ReplyError | ReplySuccess | ReplyNever

  datatype WasmInstantiate = WasmInstantiate(
    admin: Option<string>,
    codeId: U64,
    funds: seq<Coin>,
    contractLabel: string,
    msg: TokenInstantiateMsg)

  datatype SubMsg = SubMsg(id: U64, msg: WasmInstantiate, replyOn: ReplyOn)

  /** How `init` ends: with its submessages, with a host error propagated by `?`,
      or with a panic of the name/symbol slicing. */
  datatype InitResult = InitOk(messages: seq<SubMsg>) | InitErr(error: StdError) | InitPanic

  /** The reply id under which the share token's instantiation is reported back. */
  const ATERRA_INSTANTIATE_REPLY_ID: U64 := 1

  // ---- the initial-balances loop, as a specification ----

  predicate AllCanonical(api: Api, rows: seq<InitialBalance>) {
    forall i :: 0 <= i < |rows| ==> rows[i].address in api.canonical
  }

  /** The balance key a row is written under. */
  function Key(api: Api, row: InitialBalance): CanonicalAddr
    requires row.address in api.canonical
  {
    api.canonical[row.address]
  }

  /** The index of the first row whose address does not canonicalise, or `|rows|`. */
  function FirstUncanonical(api: Api, rows: seq<InitialBalance>): (k: nat)
    ensures k <= |rows|
    ensures forall i :: 0 <= i < k ==> rows[i].address in api.canonical
    ensures k < |rows| ==> rows[k].address !in api.canonical
  {
    if rows == [] then 0
    else if rows[0].address !in api.canonical then 0
    else 1 + FirstUncanonical(api, rows[1..])
  }

  /** A loop that has canonicalised rows `0..i` and fails at row `i` stops at the first
      uncanonical row. */
  lemma FirstUncanonicalAt(api: Api, rows: seq<InitialBalance>, i: nat)
    requires i <= |rows|
    requires AllCanonical(api, rows[..i])
    requires i < |rows| ==> rows[i].address !in api.canonical
    ensures FirstUncanonical(api, rows) == i
  {
  }

  /** The balances after writing every row over `m` in order, each row overwriting
      the key it canonicalises to. */
  function ApplyRows(api: Api, m: map<CanonicalAddr, Uint128>, rows: seq<InitialBalance>)
    : (r: map<CanonicalAddr, Uint128>)
    requires AllCanonical(api, rows)
    ensures m.Keys <= r.Keys
    ensures forall i :: 0 <= i < |rows| ==> Key(api, rows[i]) in r
    decreases |rows|
  {
    if rows == [] then m
    else
      var last := rows[|rows| - 1];
      ApplyRows(api, m, rows[..|rows| - 1])[Key(api, last) := last.amount]
  }

  /** Last write wins: a row that no later row overwrites decides its key's balance. */
  lemma {:induction false} ApplyRowsLastWriteWins(
    api: Api, m: map<CanonicalAddr, Uint128>, rows: seq<InitialBalance>, i: nat)
    requires AllCanonical(api, rows)
    requires i < |rows|
    requires forall j :: i < j < |rows| ==> Key(api, rows[j]) != Key(api, rows[i])
    ensures Key(api, rows[i]) in ApplyRows(api, m, rows)
    ensures ApplyRows(api, m, rows)[Key(api, rows[i])] == rows[i].amount
    decreases |rows|
  {
    var n := |rows|;
    if i < n - 1 {
      var init := rows[..n - 1];
      assert init[i] == rows[i];
      forall j | i < j < |init| ensures Key(api, init[j]) != Key(api, init[i]) {
        assert init[j] == rows[j];
      }
      ApplyRowsLastWriteWins(api, m, init, i);
    }
  }

  /** A key no row canonicalises to keeps its balance, or its absence. */
  lemma {:induction false} ApplyRowsUnlisted(
    api: Api, m: map<CanonicalAddr, Uint128>, rows: seq<InitialBalance>, a: CanonicalAddr)
    requires AllCanonical(api, rows)
    requires forall j :: 0 <= j < |rows| ==> Key(api, rows[j]) != a
    ensures a in ApplyRows(api, m, rows) <==> a in m
    ensures a in m ==> ApplyRows(api, m, rows)[a] == m[a]
    decreases |rows|
  {
    if rows != [] {
      var init := rows[..|rows| - 1];
      forall j | 0 <= j < |init| ensures Key(api, init[j]) != a {
        assert init[j] == rows[j];
      }
      ApplyRowsUnlisted(api, m, init, a);
    }
  }

  // ---- the response ----

  /** The submessage instantiating the share token: no admin, code `aterraCodeId`,
      no funds, an empty label, reply id 1 on success only; `None` when the
      name/symbol derivation panics. */
  function ShareTokenSubMsg(env: Env, msg: InitMsg, initialDeposit: Uint128): (r: Option<SubMsg>)
    ensures r.Some? <==> |msg.stableDenom| >= 2
    ensures r.Some? ==>
      && r.value.id == ATERRA_INSTANTIATE_REPLY_ID
      && r.value.replyOn == ReplySuccess
      && r.value.msg.admin == None
      && r.value.msg.codeId == msg.aterraCodeId
      && r.value.msg.funds == []
      && r.value.msg.contractLabel == ""
      && Some(r.value.msg.msg) == ShareTokenInstantiate(msg.stableDenom, env.contractAddress, initialDeposit)
  {
    var token :- ShareTokenInstantiate(msg.stableDenom, env.contractAddress, initialDeposit);
    Some(SubMsg(
      id := ATERRA_INSTANTIATE_REPLY_ID,
      msg := WasmInstantiate(admin := None, codeId := msg.aterraCodeId, funds := [], contractLabel := "", msg := token),
      replyOn := ReplySuccess))
  }

  /** The contract's storage: the balance store and the three singleton records. */
  class Storage {
    var balances: map<CanonicalAddr, Uint128>
    var tokenConfig: Option<TokenConfig>
    var config: Option<Config>
    var state: Option<State>

    constructor ()
      ensures balances == map[] && tokenConfig == None && config == None && state == None
    {
      balances := map[];
      tokenConfig := None;
      config := None;
      state := None;
    }

    /** `init`. The balance rows are written in order until one fails to
        canonicalise; the records are written one after the other, each failure
        ending the call with what was written before it; the name/symbol
        derivation runs last and may panic. `initialDeposit` is the share token's
        initial supply, `INITIAL_DEPOSIT_AMOUNT`. */
    method Init(api: Api, env: Env, msg: InitMsg, initialDeposit: Uint128) returns (r: InitResult)
      modifies this
      ensures var k := FirstUncanonical(api, msg.initialBalances);
        balances == ApplyRows(api, old(balances), msg.initialBalances[..k])
      ensures var k := FirstUncanonical(api, msg.initialBalances);
        k < |msg.initialBalances| ==>
          && r == InitErr(InvalidAddress(msg.initialBalances[k].address))
          && tokenConfig == old(tokenConfig) && config == old(config) && state == old(state)
      ensures FirstUncanonical(api, msg.initialBalances) == |msg.initialBalances| ==>
          && tokenConfig == Some(TokenConfig(msg.name, msg.symbol, env.messageSender))
          && match GenesisConfig(api, env, msg)
             case Err(e) => r == InitErr(e) && config == old(config) && state == old(state)
             case Ok(c) =>
               && config == Some(c)
               && state == Some(GenesisState(env.blockHeight, msg.ancEmissionRate))
               && r == match ShareTokenSubMsg(env, msg, initialDeposit)
                       case Some(m) => InitOk([m])
                       case None => InitPanic
    {
      var rows := msg.initialBalances;
      var i := 0;
      while i < |rows|
        invariant 0 <= i <= |rows|
        invariant AllCanonical(api, rows[..i])
        invariant balances == ApplyRows(api, old(balances), rows[..i])
        invariant tokenConfig == old(tokenConfig) && config == old(config) && state == old(state)
      {
        var address := Canonicalize(api, rows[i].address);
        if address.Err? {
          FirstUncanonicalAt(api, rows, i);
          return InitErr(address.error);
        }
        assert rows[..i + 1][..i] == rows[..i];
        balances := balances[address.value := rows[i].amount];
        i := i + 1;
      }
      assert rows[..i] == rows;
      FirstUncanonicalAt(api, rows, i);

      tokenConfig := Some(TokenConfig(name := msg.name, symbol := msg.symbol, owner := env.messageSender));

      var marketConfig := GenesisConfig(api, env, msg);
      if marketConfig.Err? {
        return InitErr(marketConfig.error);
      }
      config := Some(marketConfig.value);

      state := Some(GenesisState(env.blockHeight, msg.ancEmissionRate));

      var instantiate := ShareTokenSubMsg(env, msg, initialDeposit);
      if instantiate.None? {
        return InitPanic;
      }
      r := InitOk([instantiate.value]);
    }
  }
}
