/** The share token (aterra) that `init` instantiates: its name and symbol derived
    from the stable denomination, and its instantiation parameters. The denomination
    is taken to be ASCII, so characters and bytes coincide. */
module ShareToken {
  import opened Wrappers
  import opened Host

  datatype Cw20Coin = Cw20Coin(address: string, amount: Uint128)
  datatype MinterResponse = MinterResponse(minter: string, cap: Option<Uint128>)

  datatype TokenInstantiateMsg = TokenInstantiateMsg(
    name: string,
    symbol: string,
    decimals: U8,
    initialBalances: seq<Cw20Coin>,
    mint: Option<MinterResponse>)

  const NamePrefix: string := "Anchor Terra "
  const ShareDecimals: U8 := 6

  predicate IsLowerAscii(c: char) {
    'a' <= c <= 'z'
  }

  /** ASCII upper-casing of one character. */
  function UpperChar(c: char): (u: char)
    ensures !IsLowerAscii(u)
    ensures !IsLowerAscii(c) ==> u == c
    ensures IsLowerAscii(c) ==> 'A' <= u <= 'Z' && u as int + 32 == c as int
  {
    if IsLowerAscii(c) then (c as int - 32) as char else c
  }

  /** `to_uppercase` on an ASCII string. */
  function Upper(s: string): (r: string)
    ensures |r| == |s|
    ensures forall i :: 0 <= i < |s| ==> r[i] == UpperChar(s[i])
  {
    seq(|s|, i requires 0 <= i < |s| => UpperChar(s[i]))
  }

  /** Upper-casing twice is upper-casing once. */
  lemma UpperIdempotent(s: string)
    ensures Upper(Upper(s)) == Upper(s)
  {
  }

  /** The token name `format!("Anchor Terra {}", denom[1..].to_uppercase())`;
      `None` when the slice panics, which is on the empty denomination. */
  function TokenName(denom: string): (r: Option<string>)
    ensures r.Some? <==> |denom| >= 1
    ensures r.Some? ==> |r.value| == |denom| + 12 && r.value[..13] == NamePrefix
    ensures r.Some? ==> forall i :: 1 <= i < |denom| ==> r.value[i + 12] == UpperChar(denom[i])
  {
    if |denom| < 1 then None else Some(NamePrefix + Upper(denom[1..]))
  }

  /** The token symbol `format!("a{}T", denom[1..len - 1].to_uppercase())`; `None`
      when the slice panics, which is on a denomination shorter than two characters. */
  function TokenSymbol(denom: string): (r: Option<string>)
    ensures r.Some? <==> |denom| >= 2
    ensures r.Some? ==> |r.value| == |denom| && r.value[0] == 'a' && r.value[|denom| - 1] == 'T'
    ensures r.Some? ==> forall i :: 1 <= i < |denom| - 1 ==> r.value[i] == UpperChar(denom[i])
  {
    if |denom| < 2 then None else Some("a" + Upper(denom[1..|denom| - 1]) + "T")
  }

  /** The name carries the symbol's core followed by the upper-cased last character
      of the denomination. */
  lemma NameExtendsSymbolCore(denom: string)
    requires |denom| >= 2
    ensures TokenName(denom).Some? && TokenSymbol(denom).Some?
    ensures var name, symbol := TokenName(denom).value, TokenSymbol(denom).value;
      name == NamePrefix + symbol[1..|symbol| - 1] + [UpperChar(denom[|denom| - 1])]
  {
  }

  /** The stable denomination "uusd" gives the share token "Anchor Terra USD" / "aUST". */
  lemma UusdMetadata()
    ensures TokenName("uusd") == Some("Anchor Terra USD")
    ensures TokenSymbol("uusd") == Some("aUST")
  {
    var denom := "uusd";
    assert denom[1..] == "usd" && denom[1..3] == "us";
    assert Upper("usd") == "USD" by {
      assert Upper("usd")[0] == 'U' && Upper("usd")[1] == 'S' && Upper("usd")[2] == 'D';
    }
    assert Upper("us") == "US" by {
      assert Upper("us")[0] == 'U' && Upper("us")[1] == 'S';
    }
    assert NamePrefix + "USD" == "Anchor Terra USD";
    assert "a" + "US" + "T" == "aUST";
  }

  /** The sum of the amounts of a list of initial balances. */
  function Supply(coins: seq<Cw20Coin>): nat {
    if coins == [] then 0 else Supply(coins[..|coins| - 1]) + coins[|coins| - 1].amount
  }

  /** The instantiation parameters of the share token: the derived name and symbol,
      6 decimals, the whole initial supply `initialDeposit` held by the market
      contract, and the market contract as its only, uncapped, minter. `None` when
      the name or symbol derivation panics. */
  function ShareTokenInstantiate(denom: string, contractAddress: string, initialDeposit: Uint128)
    : (r: Option<TokenInstantiateMsg>)
    ensures r.Some? <==> |denom| >= 2
    ensures r.Some? ==>
      && Some(r.value.name) == TokenName(denom)
      && Some(r.value.symbol) == TokenSymbol(denom)
      && r.value.decimals == 6
    ensures r.Some? ==>
      && |r.value.initialBalances| == 1
      && Supply(r.value.initialBalances) == initialDeposit
      && (forall i :: 0 <= i < |r.value.initialBalances| ==> r.value.initialBalances[i].address == contractAddress)
    ensures r.Some? ==> r.value.mint == Some(MinterResponse(contractAddress, None))
  {
    var name :- TokenName(denom);
    var symbol :- TokenSymbol(denom);
    var initialBalances := [Cw20Coin(contractAddress, initialDeposit)];
    assert Supply(initialBalances) == initialDeposit by {
      assert initialBalances[..0] == [];
    }
    Some(TokenInstantiateMsg(
      name := name,
      symbol := symbol,
      decimals := ShareDecimals,
      initialBalances := initialBalances,
      mint := Some(MinterResponse(minter := contractAddress, cap := None))))
  }
}
