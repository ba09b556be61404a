/**
  The two faucets. A faucet is a tagged variant: a coin faucet sends the
  chain's base coin from its own account, an EIP20 faucet calls `transfer`
  on a configured token contract. Both read their configuration once, when
  they are built, and never change it; each fill issues exactly one request
  to the faucet's node.
 */
module Faucets {
  import opened Wrappers
  import opened JsText
  import opened Config
  import opened Process
  import opened EthNodes

  datatype Faucet =
    | CoinFaucet(ethNode: EthNode, chain: string, amount: Value)
    | Eip20Faucet(ethNode: EthNode, chain: string, eip20Address: Value, eip20Contract: TokenContract, amount: Value)

  function AmountAccessor(chain: string): string
  {
    ChainAccessor(chain, "Funds.Amount")
  }

  function AddressAccessor(chain: string): string
  {
    ChainAccessor(chain, "Funds.Address")
  }

  /** `new CoinFaucet(ethNode, chain)`: it needs the amount key, read once; without it the process exits. */
  function NewCoinFaucet(cfg: Value, ethNode: EthNode, chain: string): (r: Step<Faucet>)
    ensures r.Continue? <==> Has(cfg, AmountAccessor(chain))
    ensures r.Stop? ==> r.end == Exit(ExitFailure, MissingConfigKey(AmountAccessor(chain)))
    ensures r.Continue? ==> r.value.CoinFaucet? && r.value.ethNode == ethNode && r.value.chain == chain
    ensures r.Continue? ==> Get(cfg, AmountAccessor(chain)) == Some(r.value.amount)
  {
    if !Has(cfg, AmountAccessor(chain)) then Stop(Exit(ExitFailure, MissingConfigKey(AmountAccessor(chain))))
    else Continue(CoinFaucet(ethNode, chain, Get(cfg, AmountAccessor(chain)).value))
  }

  /**
    `new EIP20Faucet(ethNode, chain)`: it checks the token address key first,
    then binds the contract to that address, which web3 refuses with an
    exception when `acceptsAddress` says the value is no address; then it
    checks the amount key. A missing key exits the process, the first missing
    one in that order being named.
   */
  function NewEip20Faucet(cfg: Value, ethNode: EthNode, chain: string, acceptsAddress: Value -> bool): (r: Step<Faucet>)
    ensures r.Continue? <==>
      Has(cfg, AddressAccessor(chain)) && acceptsAddress(Get(cfg, AddressAccessor(chain)).value) && Has(cfg, AmountAccessor(chain))
    ensures !Has(cfg, AddressAccessor(chain)) ==> r == Stop(Exit(ExitFailure, MissingConfigKey(AddressAccessor(chain))))
    ensures Has(cfg, AddressAccessor(chain)) && !acceptsAddress(Get(cfg, AddressAccessor(chain)).value)
      ==> r == Stop(Threw(InvalidContractAddress(Get(cfg, AddressAccessor(chain)).value)))
    ensures Has(cfg, AddressAccessor(chain)) && acceptsAddress(Get(cfg, AddressAccessor(chain)).value) && !Has(cfg, AmountAccessor(chain))
      ==> r == Stop(Exit(ExitFailure, MissingConfigKey(AmountAccessor(chain))))
    ensures r.Continue? ==> r.value.Eip20Faucet? && r.value.ethNode == ethNode && r.value.chain == chain
    ensures r.Continue? ==> Get(cfg, AddressAccessor(chain)) == Some(r.value.eip20Address)
    ensures r.Continue? ==> r.value.eip20Contract == TokenContract(r.value.eip20Address)
    ensures r.Continue? ==> Get(cfg, AmountAccessor(chain)) == Some(r.value.amount)
  {
    if !Has(cfg, AddressAccessor(chain)) then Stop(Exit(ExitFailure, MissingConfigKey(AddressAccessor(chain))))
    else
      var eip20Address := Get(cfg, AddressAccessor(chain)).value;
      if !acceptsAddress(eip20Address) then Stop(Threw(InvalidContractAddress(eip20Address)))
      else
        var eip20Contract := TokenContract(eip20Address);
        if !Has(cfg, AmountAccessor(chain)) then Stop(Exit(ExitFailure, MissingConfigKey(AmountAccessor(chain))))
        else Continue(Eip20Faucet(ethNode, chain, eip20Address, eip20Contract, Get(cfg, AmountAccessor(chain)).value))
  }

  /** The `address` getter: a coin faucet answers with its node account's address; an EIP20 faucet has no such getter. */
  function FaucetAddress(f: Faucet): (r: Option<string>)
    ensures r.Some? <==> f.CoinFaucet?
    ensures r.Some? ==> r.value == f.ethNode.account.address
  {
    match f
    case CoinFaucet(ethNode, _, _) => Some(ethNode.account.address)
    case Eip20Faucet(_, _, _, _, _) => None
  }

  /**
    The one request `fill(beneficiary)` issues: a transaction of the configured
    value, or a `transfer` call with the amount as a string; in both cases to
    the beneficiary and from the faucet's own account.
   */
  function FillRequest(f: Faucet, beneficiary: string): (req: NodeRequest)
    ensures Recipient(req) == beneficiary
    ensures Sender(req) == f.ethNode.account.address
    ensures req.SendTransaction? <==> f.CoinFaucet?
    ensures req.SendTransaction? ==> req.value == f.amount
    ensures req.TransferSend? ==> req.contract == f.eip20Contract && req.amount == ToJsString(f.amount)
  {
    match f
    case CoinFaucet(ethNode, _, amount) =>
      SendTransaction(beneficiary, amount, ethNode.account.address)
    case Eip20Faucet(ethNode, _, _, eip20Contract, amount) =>
      TransferSend(eip20Contract, beneficiary, ToJsString(amount), ethNode.account.address)
  }

  /** What a fill reports to its caller: a transaction hash, an error event, or a synchronous exception. */
  datatype FillResult = TxHash(hash: string) | FillFailed(details: string) | FillThrew(details: string)

  /** The requests a fill issued, in order, and its result. */
  datatype FillRun = FillRun(issued: seq<NodeRequest>, result: FillResult)

  /**
    `fill(beneficiary)` against a node that answers `node(req)`: one request is
    issued, and the result is the hash the node reports, or its error.
   */
  function Fill(f: Faucet, beneficiary: string, node: NodeRequest -> NodeAnswer): (run: FillRun)
    ensures |run.issued| == 1 && run.issued[0] == FillRequest(f, beneficiary)
    ensures run.result.TxHash? <==> node(run.issued[0]).Submitted?
    ensures run.result.TxHash? ==> run.result.hash == node(run.issued[0]).transactionHash
    ensures run.result.FillFailed? <==> node(run.issued[0]).Rejected?
    ensures run.result.FillThrew? <==> node(run.issued[0]).Raised?
    ensures !run.result.TxHash? ==> run.result.details == node(run.issued[0]).error
  {
    var req := FillRequest(f, beneficiary);
    var result :=
      match node(req)
      case Submitted(h) => TxHash(h)
      case Rejected(e) => FillFailed(e)
      case Raised(e) => FillThrew(e);
    FillRun([req], result)
  }

  /** The sender of a fill does not depend on the beneficiary: it is always the faucet's account. */
  lemma FillSenderIgnoresBeneficiary(f: Faucet, a: string, b: string)
    ensures Sender(FillRequest(f, a)) == Sender(FillRequest(f, b)) == f.ethNode.account.address
  {
  }

  /** An EIP20 fill with a numeric amount passes exactly that number, written in decimal. */
  lemma Eip20AmountIsDecimal(f: Faucet, beneficiary: string)
    requires f.Eip20Faucet? && f.amount.Num?
    ensures var s := FillRequest(f, beneficiary).amount;
      && s != [] && (s[0] == '-' || IsDigit(s[0]))
      && (forall k :: 1 <= k < |s| ==> IsDigit(s[k]))
      && ParseNumber(s) == f.amount.n
  {
    NumberRoundTrip(f.amount.n);
  }
}
