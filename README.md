# Market contract entry points, modelled in Dafny

This project models the entry-point layer of a money-market contract: the
`init` entry point, the `execute` dispatcher and the cw20 `receive` hook of
`src/contract.rs`. The exchange-rate, deposit, redeem and interest arithmetic
lives in a `deposit` module that is imported there. That module is not part of
this model. Its handlers appear only as opaque outcomes: the `Handler`
datatype records which handler runs and with which arguments.

Modules:

- `Wrappers` (wrappers.dfy): `Option` and `Result` with the members `:-` needs.
- `Host` (host.dfy): the host library's bounded integers (`U64`, `Uint128`,
  `Uint256`), `Decimal256` kept as its 18-digit atomics, canonical addresses, the
  call environment, and an `Api` address book. A raw address validates and
  canonicalises exactly when the book knows it. Otherwise the call fails with
  `InvalidAddress(raw)`.
- `MarketMsg` (msg.dfy): `InitMsg`, `ExecuteMsg`, `Cw20ReceiveMsg` and `Cw20HookMsg`.
- `MarketState` (state.dfy): the records `init` stores, including the genesis
  market config and the genesis pool state.
- `ShareToken` (token.dfy): how the share token's name and symbol come from the
  stable denomination, and the token's instantiation parameters.
- `Instantiate` (init.dfy): the contract storage as a class, and `Init`. `Init`
  holds the initial-balances loop. Its contract gives the new balances as
  `ApplyRows` of the rows it wrote. The lemmas `ApplyRowsLastWriteWins` and
  `ApplyRowsUnlisted` state what `ApplyRows` leaves at each address.
- `Dispatch` (dispatch.dfy): `Execute` and `ReceiveCw20` as functions from a
  message to a handler call or a `ContractError`.

`src/contract.rs` uses two generations of the host API and two different
`Config` records (lines 31-38 and 40-54). The model keeps them as two separate
records, `TokenConfig` and `Config`, written one after the other.
`prev_aterra_supply` is stored as a `Uint256` (src/contract.rs:66), and the model
follows that.

## Model

| member | source | states |
|---|---|---|
| MarketState.GenesisState | src/contract.rs:56-69 | the stored pool state has no liabilities or reserves, interest index 1, reward index 0, both accrual heights equal to the init block height, previous supply 0, previous exchange rate 1, and the message's emission rate |
| MarketState.GenesisKeepsPoolInvariant | src/contract.rs:56-69 | the genesis pool state meets the pool invariant (reserves within cash plus liabilities, interest index at least 1) for any cash balance; this is only the base case, since no operation here changes those fields |
| MarketState.GenesisConfig | src/contract.rs:40-54 | the market config succeeds iff the contract address and the owner address both canonicalise; the error names the first that fails; on success all six collaborator addresses are empty, contract and owner are the canonical forms, and the stable denomination and max borrow factor are copied from the message |
| Instantiate.FirstUncanonical | src/contract.rs:27-28 | the index where the balance loop stops: every earlier row canonicalises and the row there does not |
| Instantiate.ApplyRows | src/contract.rs:27-30 | writing the rows keeps every earlier key and defines a balance for every listed row's key |
| Instantiate.ApplyRowsLastWriteWins | src/contract.rs:27-30 | a listed key holds the amount of the last row that canonicalises to it |
| Instantiate.ApplyRowsUnlisted | src/contract.rs:27-30 | a key that no row canonicalises to keeps its balance, or stays absent |
| Instantiate.Storage.Init | src/contract.rs:21-98 | balances are the rows written up to the first that fails to canonicalise, and that failure is the result; otherwise the token config is stored with the sender as owner, then the market config or its canonicalisation error, then the genesis pool state, and the result is the share-token submessage or a panic |
| Instantiate.ShareTokenSubMsg | src/contract.rs:71-97 | the submessage exists iff the denomination has at least two characters; it has no admin, the message's code id, no funds, an empty label, reply id 1 on success, and the share token's instantiation parameters |
| ShareToken.UpperChar | src/contract.rs:79 | the result is never lower-case ASCII; a lower-case letter maps to its capital and any other character is unchanged |
| ShareToken.Upper | src/contract.rs:79-83 | upper-casing keeps the length and upper-cases each character in place |
| ShareToken.UpperIdempotent | src/contract.rs:79-83 | upper-casing twice equals upper-casing once |
| ShareToken.TokenName | src/contract.rs:79 | the name exists iff the denomination is non-empty; it is "Anchor Terra " followed by each character of the denomination after the first, upper-cased, and is 12 characters longer than the denomination |
| ShareToken.TokenSymbol | src/contract.rs:80-83 | the symbol exists iff the denomination has at least two characters; it has the same length, starts with 'a', ends with 'T', and in between holds the denomination's inner characters upper-cased |
| ShareToken.NameExtendsSymbolCore | src/contract.rs:79-83 | the name is "Anchor Terra " followed by the symbol's core and the upper-cased last character of the denomination |
| ShareToken.UusdMetadata | src/contract.rs:79-83 | "uusd" gives the name "Anchor Terra USD" and the symbol "aUST" |
| ShareToken.ShareTokenInstantiate | src/contract.rs:78-93 | the parameters exist iff the denomination has at least two characters; they carry the derived name and symbol and 6 decimals; the only initial balance is the initial deposit, held by the market contract; the market contract is the only minter and has no cap |
| Dispatch.FirstInvalid | src/contract.rs:118-125 | finds the first address the host rejects; it is None iff every address validates |
| Dispatch.FirstInvalidFive | src/contract.rs:118-125 | validating the five registered contracts in message order stops at the first invalid one |
| Dispatch.Present | src/contract.rs:138-140 | keeps exactly the addresses that are present among the optional ones |
| Dispatch.FirstInvalidPresent | src/contract.rs:138-140 | searching the present optional addresses finds none iff every present one is valid, and otherwise the first present invalid one in message order |
| Dispatch.PresentThree | src/contract.rs:134-142 | validating the three optional config addresses in order reports the first present address that is invalid |
| Dispatch.ReceiveCw20 | src/contract.rs:190-210 | a hook other than RedeemStable gives MissingRedeemStableHook whoever sends it; redeem is called iff the hook is RedeemStable, a config is stored, the sending token contract canonicalises to the registered aterra contract and the cw20 sender validates; it is then called once, with the cw20 sender and amount; a canonicalisable sender other than the aterra contract gives Unauthorized; with a RedeemStable hook, a missing config gives NotFound, a sender that does not canonicalise gives its InvalidAddress, and an authorised hook whose cw20 sender is invalid gives InvalidAddress of that sender, so authorisation comes before validating the redeemer |
| Dispatch.Execute | src/contract.rs:102-188 | each message variant reaches its own handler with its arguments once their addresses validate in message order; Receive behaves as the receive hook; DepositStable always reaches deposit_stable; borrow and claim-rewards handlers are never reached (by construction, since their arms are commented out and the message type leaves them out) |
| Dispatch.RedeemLockedUntilRegistered | src/contract.rs:196-203 | while the stored aterra address is still the empty one written at init, no cw20 hook reaches redeem |

## Left out

- The `deposit` module (exchange rate, deposit, redeem, interest accrual) is not part of this model. `deposit_stable` and `redeem_stable` are opaque `Handler` outcomes.
- `register_contracts`, `update_config`, `execute_epoch_operations`, `repay_stable` and `repay_stable_from_liquidation` are not defined in `src/contract.rs`. Only the dispatch to them is modelled.
- Address validation and canonicalisation by the host are replaced by a deterministic address book (`Host.Api`). The host's own acceptance rules are not modelled.
- JSON encoding and decoding (`to_binary`, `from_binary`) are left out. A cw20 hook payload is modelled as already decoded: `None` means it does not decode.
- Storage encoding and its failure modes are left out. The model treats every storage write as successful.
- The host reverting a failed transaction is not modelled. `Init` ends with the writes made before the failure, as the code does up to that point.
- Response builders and attributes are reduced to the single submessage `init` returns. Reply handling is not defined in this file.
- `Decimal256` and `Uint256` arithmetic is not modelled; only the constants 0 and 1 (atomics 10^18) occur.
- ShareToken.Upper: models ASCII upper-casing only. Rust's Unicode `to_uppercase` and byte-boundary slicing of multi-byte characters are not modelled, because a stable denomination is ASCII.
- `INITIAL_DEPOSIT_AMOUNT` is not defined in `src/contract.rs`. `Init` takes it as the parameter `initialDeposit`.
- The `query` entry point (lines 212-233) only marshals stored values, so it is left out.
- The borrow and claim-rewards arms of `execute` are commented out in the source. They appear only as `Handler` variants that `Execute` never produces.
