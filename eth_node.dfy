/**
  What the faucets need of a node connection: the unlocked account it signs
  with, the two requests a faucet issues, and the node's answer to one
  request. The provider engine and the websocket transport are not modelled.
 */
module EthNodes {
  import opened Config
  import opened Process

  /** The decrypted web3 account, an opaque record of its address and private key. */
  datatype KeyPair = KeyPair(address: string, privateKey: string)

  /**
    A started node connection for `chain`. It holds the account that was
    unlocked before the node was built; that account is never unlocked again,
    so holding it by value shows what the source reads through the reference.
   */
  datatype EthNode = EthNode(chain: string, account: KeyPair)

  /** `new web3.eth.Contract(eip20Abi, at)`: a token contract bound to a configured address. */
  datatype TokenContract = TokenContract(at: Value)

  /** A request a faucet issues to its node. */
  datatype NodeRequest =
    | SendTransaction(to: string, value: Value, from: string)
    | TransferSend(contract: TokenContract, recipient: string, amount: string, from: string)

  /**
    The node's answer to one request: a transaction hash, an asynchronous
    error, or an exception thrown synchronously by the call itself.
   */
  datatype NodeAnswer = Submitted(transactionHash: string) | Rejected(error: string) | Raised(error: string)

  function Recipient(req: NodeRequest): string
  {
    match req
    case SendTransaction(to, _, _) => to
    case TransferSend(_, recipient, _, _) => recipient
  }

  function Sender(req: NodeRequest): string
  {
    match req
    case SendTransaction(_, _, from) => from
    case TransferSend(_, _, _, from) => from
  }

  function WebSocketAccessor(chain: string): string
  {
    ChainAccessor(chain, "WebSocket")
  }

  /** `ethNode.start()`: the connection needs the chain's WebSocket key; without it the process exits. */
  function Start(cfg: Value, chain: string, account: KeyPair): (r: Step<EthNode>)
    ensures r.Continue? <==> Has(cfg, WebSocketAccessor(chain))
    ensures r.Continue? ==> r.value.chain == chain && r.value.account == account
    ensures r.Stop? ==> r.end == Exit(ExitFailure, MissingConfigKey(WebSocketAccessor(chain)))
  {
    if !Has(cfg, WebSocketAccessor(chain)) then Stop(Exit(ExitFailure, MissingConfigKey(WebSocketAccessor(chain))))
    else Continue(EthNode(chain, account))
  }
}
