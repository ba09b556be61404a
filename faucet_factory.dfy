/**
  `FaucetFactory.build`: the chain's configured type string selects the
  faucet variant. Matching is exact; a missing type key or any other type
  exits the process.
 */
module FaucetFactory {
  import opened Wrappers
  import opened JsText
  import opened Config
  import opened Process
  import opened EthNodes
  import opened Faucets

  function TypeAccessor(chain: string): string
  {
    ChainAccessor(chain, "Funds.Type")
  }

  const Eip20Type := Str("EIP20")
  const CoinType := Str("Coin")

  function Build(cfg: Value, ethNode: EthNode, chain: string, acceptsAddress: Value -> bool): (r: Step<Faucet>)
    ensures !Has(cfg, TypeAccessor(chain)) ==> r == Stop(Exit(ExitFailure, MissingConfigKey(TypeAccessor(chain))))
    ensures Get(cfg, TypeAccessor(chain)) == Some(Eip20Type) ==> r == NewEip20Faucet(cfg, ethNode, chain, acceptsAddress)
    ensures Get(cfg, TypeAccessor(chain)) == Some(CoinType) ==> r == NewCoinFaucet(cfg, ethNode, chain)
    ensures forall t :: (Get(cfg, TypeAccessor(chain)) == Some(t) && t != Eip20Type && t != CoinType
                         ==> r == Stop(Exit(ExitFailure, UnknownFaucetType(t))))
  {
    if !Has(cfg, TypeAccessor(chain)) then Stop(Exit(ExitFailure, MissingConfigKey(TypeAccessor(chain))))
    else
      var faucetType := Get(cfg, TypeAccessor(chain)).value;
      if faucetType == Eip20Type then NewEip20Faucet(cfg, ethNode, chain, acceptsAddress)
      else if faucetType == CoinType then NewCoinFaucet(cfg, ethNode, chain)
      else Stop(Exit(ExitFailure, UnknownFaucetType(faucetType)))
  }

  /**
    A faucet is built exactly when the type is one of the two names and the
    keys its variant needs are present; it is then the variant the type names,
    on the given node and chain.
   */
  lemma BuildSucceedsExactly(cfg: Value, ethNode: EthNode, chain: string, acceptsAddress: Value -> bool)
    ensures var r := Build(cfg, ethNode, chain, acceptsAddress);
      var t := Get(cfg, TypeAccessor(chain));
      && (r.Continue? <==>
            || (t == Some(CoinType) && Has(cfg, AmountAccessor(chain)))
            || (t == Some(Eip20Type) && Has(cfg, AddressAccessor(chain))
                && acceptsAddress(Get(cfg, AddressAccessor(chain)).value) && Has(cfg, AmountAccessor(chain))))
      && (r.Continue? ==> r.value.ethNode == ethNode && r.value.chain == chain)
      && (r.Continue? ==> (r.value.CoinFaucet? <==> t == Some(CoinType)))
  {
  }

  /** A type that differs from the two names only in letter case is unknown. */
  lemma CaseVariantsExit(cfg: Value, ethNode: EthNode, chain: string, acceptsAddress: Value -> bool)
    requires Get(cfg, TypeAccessor(chain)) in {Some(Str("eip20")), Some(Str("coin")), Some(Str("COIN"))}
    ensures Build(cfg, ethNode, chain, acceptsAddress) == Stop(Exit(ExitFailure, UnknownFaucetType(Get(cfg, TypeAccessor(chain)).value)))
  {
  }

  /** For a chain name without '.', the type is read at `Chains`, the chain, `Funds`, `Type` of the configuration. */
  lemma TypeKeyLocation(cfg: Value, chain: string)
    requires '.' !in chain
    ensures Get(cfg, TypeAccessor(chain)) == Lookup(cfg, ["Chains", chain, "Funds", "Type"])
  {
    var key := ["Funds", "Type"];
    assert Join(key, '.') == "Funds.Type";
    assert '.' !in key[0] && '.' !in key[1];
    ChainAccessorPath(chain, key);
    assert TypeAccessor(chain) == ChainAccessor(chain, Join(key, '.'));
    assert ["Chains", chain] + key == ["Chains", chain, "Funds", "Type"];
  }

  /** A built coin faucet always sends the amount configured for its chain, to the beneficiary, from the node's account. */
  lemma CoinFillSendsConfiguredAmount(cfg: Value, ethNode: EthNode, chain: string, beneficiary: string, acceptsAddress: Value -> bool)
    requires Get(cfg, TypeAccessor(chain)) == Some(CoinType)
    requires Build(cfg, ethNode, chain, acceptsAddress).Continue?
    ensures Get(cfg, AmountAccessor(chain)).Some?
    ensures FillRequest(Build(cfg, ethNode, chain, acceptsAddress).value, beneficiary)
      == SendTransaction(beneficiary, Get(cfg, AmountAccessor(chain)).value, ethNode.account.address)
  {
  }

  /**
    A built EIP20 faucet always calls `transfer` on the contract at the
    configured address, passing the configured amount as a string.
   */
  lemma Eip20FillTransfersConfiguredAmount(cfg: Value, ethNode: EthNode, chain: string, beneficiary: string, acceptsAddress: Value -> bool)
    requires Get(cfg, TypeAccessor(chain)) == Some(Eip20Type)
    requires Build(cfg, ethNode, chain, acceptsAddress).Continue?
    ensures Get(cfg, AddressAccessor(chain)).Some? && Get(cfg, AmountAccessor(chain)).Some?
    ensures acceptsAddress(Get(cfg, AddressAccessor(chain)).value)
    ensures FillRequest(Build(cfg, ethNode, chain, acceptsAddress).value, beneficiary)
      == TransferSend(TokenContract(Get(cfg, AddressAccessor(chain)).value), beneficiary,
                      ToJsString(Get(cfg, AmountAccessor(chain)).value), ethNode.account.address)
  {
  }
}
