# Faucet: a Dafny model

This project models the core of an HTTP faucet for Ethereum-style chains.
At start-up the server builds one faucet per requested chain, keyed by the
chain's name. There are two kinds of faucet. A coin faucet sends a configured
amount of the chain's base coin from its own account. An EIP20 faucet calls
`transfer` on a configured token contract. Each faucet signs with an account
whose encrypted keystore is stored in the configuration under
`Chains.<chain>.Account`. If that keystore is missing, a new account is
created and written into the configuration file, and the process ends so it
can be restarted.

A request body names `address@chain`. The handler parses the body, looks up
the chain's faucet, fills the address, and answers with the transaction hash
or an error.

The model is split into modules:
- **JsText**: the JavaScript string operations the code relies on: `split`,
  `join`, `substring`, and `String(n)` for integers in JavaScript's safe
  range.
- **Config**: the configuration as one nested JSON-like value. `config.has`
  and `config.get` walk a dotted accessor; `updateConfigAccount` makes a
  nested assignment.
- **Process**: how start-up ends when it does not go on: `process.exit(1)`
  with its reason, or a thrown exception. A throw during start-up rejects
  the promise of `run`, which the entry point neither awaits nor catches;
  the model records only that the server then never listens.
- **EthNodes**: the requests a faucet issues to its node and the node's
  answers.
- **Faucets**, **FaucetFactory**, **Accounts** and **Servers**: one module
  per core source file.

Outside effects are parameters of the model:
- the node is a function from a request to an answer;
- `JSON.parse` of the body is a function returning the body's reading;
- prompts give the password typed for the k-th chain;
- account creation, encryption and decryption are given functions;
- whether web3 accepts a value as a contract address is a given predicate;
- the configuration sources and file existence are given values.

Starting a node keeps only its configuration-key check.

The account and the server are classes. `Account.unlock` assigns the
unlocked account. `Server.initializeFaucets` is a loop that updates the
faucet map, and it is proved equal to a recursive definition of start-up.
The lemmas about that definition state what start-up does: which keys the
map gets, which entry wins for a repeated chain, and where start-up stops.

## Model

| member | source | states |
|---|---|---|
| JsText.Split | src/Server.ts:114 | `split` always yields at least one segment, and no segment contains the separator |
| JsText.JoinSplit | src/Server.ts:114 | joining the segments of a split gives back the original string |
| JsText.SplitJoin | src/Server.ts:114 | splitting a join of separator-free segments gives back the segments |
| JsText.Substring | src/Account.ts:117 | `substring(start)` clamps a start index outside `0..length`; the result is always a suffix |
| JsText.LastFourIs | src/Account.ts:117 | comparing the last four characters with a four-letter word is the same as testing that suffix, names shorter than four included |
| JsText.NumberRoundTrip | src/Faucet/EIP20Faucet.ts:49 | `toString` of an integer amount is a decimal numeral that parses back to the same integer |
| Config.ChainAccessorPath | src/Faucet/FaucetFactory.ts:19 | for a chain name without '.', `Chains.<chain>.<key>` walks `Chains`, the chain, then each segment of the key |
| Config.SetAt | src/Account.ts:87 | a successful nested assignment is made on an object and yields an object whose own keys are the old ones plus the first key of the path |
| Config.SetAtDefined | src/Account.ts:87 | the nested assignment succeeds exactly when the parent of the target is an object; otherwise strict mode throws |
| Config.SetAtBelow | src/Account.ts:87 | after the assignment, the target path holds the assigned value |
| Config.SetAtFrame | src/Account.ts:87 | every path that neither contains the target nor lies inside it keeps its value |
| EthNodes.Start | src/EthNode.ts:35-39 | the node starts exactly when the chain's WebSocket key is configured; otherwise the process exits naming that key |
| Faucets.NewCoinFaucet | src/Faucet/CoinFaucet.ts:20-31 | a coin faucet is built exactly when the amount key exists, and reads the amount once; otherwise exit with that key |
| Faucets.NewEip20Faucet | src/Faucet/EIP20Faucet.ts:20-40 | the Address key is checked first, then the contract is bound to the configured address (web3 throws on a value it refuses), then the Amount key is checked; a missing key exits naming the first one missing |
| Faucets.FaucetAddress | src/Faucet/CoinFaucet.ts:36-38 | a coin faucet's `address` is its node account's address |
| Faucets.FillRequest | src/Faucet/CoinFaucet.ts:45-55 | a fill goes to the beneficiary, from the faucet's account. A coin fill sends the configured value. An EIP20 fill transfers the amount as a string |
| Faucets.Fill | src/Faucet/EIP20Faucet.ts:46-59 | a fill issues exactly one request. It yields the transaction hash the node reports, or the node's error |
| Faucets.FillSenderIgnoresBeneficiary | src/Faucet/CoinFaucet.ts:50 | the sender never depends on the beneficiary; it is always the faucet's own account |
| Faucets.Eip20AmountIsDecimal | src/Faucet/EIP20Faucet.ts:49 | a numeric EIP20 amount is passed as its decimal numeral, which denotes the configured number |
| FaucetFactory.Build | src/Faucet/FaucetFactory.ts:18-38 | a missing type key exits first; `'EIP20'` builds an EIP20 faucet, `'Coin'` a coin faucet, and any other value exits naming it |
| FaucetFactory.BuildSucceedsExactly | src/Faucet/FaucetFactory.ts:27-36 | a faucet is built exactly when the type is one of the two names, its variant's keys exist and, for EIP20, web3 accepts the address; it is the named variant, on the given node and chain |
| FaucetFactory.CaseVariantsExit | src/Faucet/FaucetFactory.ts:27-36 | the type match is exact: `eip20`, `coin` and `COIN` exit as unknown types |
| FaucetFactory.TypeKeyLocation | src/Faucet/FaucetFactory.ts:19 | the type is read at `Chains`, the chain, `Funds`, `Type` |
| FaucetFactory.CoinFillSendsConfiguredAmount | src/Faucet/CoinFaucet.ts:24-51 | every fill of a built coin faucet sends the chain's configured amount to the beneficiary, from the node's account |
| FaucetFactory.Eip20FillTransfersConfiguredAmount | src/Faucet/EIP20Faucet.ts:24-52 | every fill of a built EIP20 faucet transfers the configured amount, as a string. The call goes to the contract at the configured address, from the node's account |
| Accounts.AccountAccessorPath | src/Account.ts:26 | `Chains.<chain>.Account` reads the same object path the update writes |
| Accounts.JsonSourceByName | src/Account.ts:117 | a source passes the test exactly when its name ends in `json`; a passing name is never empty |
| Accounts.FirstJsonSource | src/Account.ts:114-123 | the result is the name of the first source, in list order, that passes the test; it is `''` exactly when none does |
| Accounts.UnlockOutcome | src/Account.ts:53-59 | a missing keystore makes `config.get` throw. A failed decryption throws. Otherwise the decrypted account is the result |
| Accounts.UpdateConfigAccount | src/Account.ts:85-108 | It never returns normally. It throws when the chain's value is neither an object nor an inherited member; otherwise it exits with code 1. Without the file it exits without writing. Otherwise it writes only `Account` under the chain, or, for an inherited chain name, the configuration unchanged, then exits |
| Accounts.AddNewToConfig | src/Account.ts:41-47 | the written keystore is the new account's private key encrypted under the password, except for an inherited chain name, whose file is written unchanged; it throws exactly when the update does, and otherwise exits |
| Accounts.WrittenAccountIsInConfig | src/Account.ts:86-101 | after a restart on the written file, for a chain name without '.', the account accessor finds the written keystore exactly when the chain is not an inherited member name |
| Accounts.NoJsonSourceWritesNothing | src/Account.ts:89-96 | with no JSON source the path is `''`, which never exists, so the process exits with code 1 without writing, for an own chain object and an inherited chain name alike |
| Accounts.Account.constructor | src/Account.ts:23-27 | a new account has its chain, its accessor, and nothing unlocked |
| Accounts.Account.IsInConfig | src/Account.ts:32-34 | true exactly when the configuration has the account accessor; for a chain name without '.', exactly when the object path `Chains`, chain, `Account` is present |
| Accounts.Account.Unlock | src/Account.ts:53-59 | on success the decrypted account becomes the unlocked one; on a throw the unlocked account is unchanged |
| Accounts.Account.Address | src/Account.ts:64-66 | the unlocked account's address; none before `unlock` |
| Accounts.Account.PrivateKey | src/Account.ts:71-73 | the unlocked account's private key; none before `unlock` |
| Accounts.Account.GetConfigSource | src/Account.ts:114-123 | the scan returns the first JSON source's name, or `''` |
| Servers.SetUpChain | src/Server.ts:60-86 | a chain that is set up yields a faucet for that chain, and only when its account and WebSocket keys are configured |
| Servers.SetUpChainSpec | src/Server.ts:59-86 | a chain is set up exactly when its account is configured and unlocks, its node starts, and its faucet is built; a missing account ends the process through `addNewToConfig` |
| Servers.InheritedChainNeverStarts | src/Account.ts:85-107 | a chain named like an inherited member with no own entry under `Chains` never gets a faucet: set-up always exits, and any file it writes is the configuration unchanged, so each restart ends alike |
| Servers.InitializeFrom | src/Server.ts:57-88 | start-up never removes an entry the faucet map already had |
| Servers.Completed | src/Server.ts:59-87 | counts the leading chains that were set up; the chain after them ended the process |
| Servers.InitializeStops | src/Server.ts:59-87 | start-up completes exactly when every chain is set up; otherwise it ends with the first failing chain's termination |
| Servers.InitializeKeys | src/Server.ts:59-87 | the map's keys are the earlier keys plus each chain that was set up |
| Servers.InitializeLastWins | src/Server.ts:86 | a chain's entry is the faucet of its last set-up, so a repeated chain overwrites its earlier entry |
| Servers.InitializeFrame | src/Server.ts:86 | entries of chains not set up are unchanged |
| Servers.StartUpCoversEveryChain | src/Server.ts:59-87 | after a completed start-up there is an entry for every listed chain and no other new entry |
| Servers.Server.constructor | src/Server.ts:22-30 | a new server has its port and no faucets |
| Servers.Server.Run | src/Server.ts:35-51 | with no chain it exits with code 1 before any set-up; otherwise it runs start-up and listens only if start-up completes |
| Servers.Server.InitializeFaucets | src/Server.ts:57-88 | the loop leaves the faucet map, and stops, exactly as the recursive start-up does |
| Servers.Render | src/Server.ts:134-160 | status 200 exactly for a transaction hash, with body `{txHash}`; both failure kinds give 500 with `{error, details}` |
| Servers.ParseBeneficiary | src/Server.ts:114-115 | an accepted beneficiary yields a non-empty address and a non-empty chain, neither containing '@' |
| Servers.ParseBeneficiaryReads | src/Server.ts:114-115 | an accepted beneficiary reads as a non-empty address, '@', a non-empty chain, and optionally a further '@' and anything |
| Servers.ParseBeneficiaryAccepts | src/Server.ts:114-115 | every such reading is accepted with exactly that address and chain |
| Servers.ParseBeneficiaryIff | src/Server.ts:114-115 | both directions: the address is the text before the first '@', and the chain is the text up to the next '@' |
| Servers.ParseReadsFirstTwo | src/Server.ts:114-115 | destructuring reads only the first two segments; an empty one is rejected |
| Servers.LaterSegmentsIgnored | src/Server.ts:114 | segments after the chain do not change the parse |
| Servers.HandleRequestAsWritten | src/Server.ts:100-162 | the handler as the code runs it: its lookup also finds the 12 `Object.prototype` members, so a chain named like one without a faucet of its own gets 500 `faucet.fill is not a function`; every other request is handled as by the corrected lookup |
| Servers.HandleRequest | src/Server.ts:100-162 | corrected lookup (own entries only): an empty or malformed body gets 400 with no lookup. An unknown chain gets 400 naming it, and no fill. A known chain is filled once and the reply rendered. Unparsable bodies escape |
| Servers.FillHappensExactlyWhen | src/Server.ts:126-136 | a fill is issued exactly when the body is well formed and names a chain with a faucet; it is the only node call, for that address |
| Servers.MalformedBodyRejected | src/Server.ts:102-124 | an empty body, or a beneficiary with no reading as address and chain, gets the fixed 400 error and no events |
| Servers.FailureKindsAgree | src/Server.ts:140-160 | an error event and a synchronous throw with the same text produce the same reply |
| Servers.UnparsedBodyEscapes | src/Server.ts:113-114 | a body that is not JSON, or has no beneficiary string, is never answered: the exception escapes |
| Servers.SuccessCarriesHash | src/Server.ts:135-139 | the reply is 200 exactly when the node reports a hash, and its body is that hash; otherwise 500 with the error |
| Servers.InheritedNameAsWritten | src/Server.ts:126-127 | a chain named like an inherited object member, with no faucet, gets 500 as written and 400 after correction |
| Servers.ToStringChainAsWritten | src/Server.ts:126-127 | `0xabc@toString` with no faucets: 500 as written, 400 "No faucet running for chain toString" after correction |
| Servers.AsWrittenAgreesOtherwise | src/Server.ts:126-127 | for every request whose chain, if it has one, is not an inherited member name or has its own faucet, the code as written and the corrected lookup give the same run |

## Left out

- HTTP plumbing is not modelled: `createServer`, `listen`, chunk streaming and `response.end`. The handler takes the whole body string and yields a status and a JSON object, or an escaped exception.
- An escaped exception is where the model stops. In the source the logger's exception handler logs it and then, by default, exits the process, so every faucet stops.
- `JSON.parse` is a given function: the body is not JSON, has no `beneficiary` string, or has one.
- Cryptography is given functions: account creation, `encrypt` and `decrypt`. Keystores are opaque configuration values; an account is its address and private key.
- Filesystem: `accessSync` is a given "file exists" predicate, and `''` never exists. `writeFileSync` is a recorded write of the updated configuration value, which never fails; the exception it can throw, which rejects the promise of `run`, is not modelled. The JSON text is not modelled.
- `config.util.toObject` and `getConfigSources` are given as the configuration value and the list of source names.
- Password prompts are given per iteration; the two prompts of one iteration are one value, as only one of them is used before the iteration ends.
- Logging is left out. So is the listen callback, which only logs each faucet's `address`.
- CLI entry points, the provider engine and the websocket transport are not modelled. So are the signing callback and `EthNode.stop`. Of `EthNode.start` only the WebSocket key check is kept.
- `fill`'s result is the node's answer: a hash, an error event, or a synchronous throw. The code calls `.on` on the value `EIP20Faucet.fill` returns, but that value is a plain Promise. This emitter-versus-Promise difference is not modelled. In the source, `.on` on that Promise throws a TypeError inside the `try`, so every request to an EIP20 faucet is answered 500 after the transfer has been issued; a 200 reply happens only for coin faucets. Neither is a second `response.end` after a reply.
- Amounts are configuration values; a numeric amount is an integer. Fractional amounts are not modelled.
- Configuration values are strings, integers and objects only; JSON's `null`, `true`/`false` and arrays are not modelled. `config.has` accepts a `null` value, so a `null` `Funds.Amount` passes the key check; for an EIP20 faucet, `toString` on it then throws inside `fill` and the request is answered 500. A `null` `Funds.Address` passes its check too. These error paths are not in the model.
- JsText.NumberRoundTrip: it holds for JavaScript's `toString` only for `|n| <= 2^53 - 1`. Above that a JavaScript number is a rounded double whose printed digits differ, and from `10^21` on `toString` prints an exponent (`1e+21`). The model prints the exact decimal of every integer.
- Faucets.Eip20AmountIsDecimal: the same bound applies. An amount of `10^21` or more (1000 tokens at 18 decimals) reaches `transfer` in exponent form in the source, not as a decimal numeral.
- Accounts.UpdateConfigAccount: a `Chains` value that is a string or a number is modelled as making the assignment throw. The model does not follow the members such a value inherits from `String` or `Number`.
- Set-up runs on values: the prompts' `await` and concurrency are not modelled.
- Chain names containing '.': node-config's dotted lookup is modelled for every chain name. The link between the accessor and the object path written by `updateConfigAccount` is proved only for chain names without '.'. For a dotted name such as `a.b` the source writes the keystore under the own key `a.b` of `Chains`, while `config.has` walks `Chains`, `a`, `b`; the restarted process then does not find it.
- Servers.InheritedNameAsWritten: it assumes the chain name is non-empty and has no '@'. Every inherited member name meets this, but the lemma does not derive it from the name list.
- Assignment through `faucets["__proto__"]` replaces the object's prototype instead of storing an entry; start-up is modelled as a plain map update.
- There is no nonce tracking, balance-threshold check or 422 response. The code has none of these.

## Findings

| source | as written | input that shows it | evidently intended | confidence | as-written member | corrected member |
|---|---|---|---|---|---|---|
| src/Server.ts:126-131 | the faucet map is a plain `{}` object, so `self.faucets[chain]` also finds members inherited from `Object.prototype`, and the `=== undefined` guard lets them through; `faucet.fill` is then not a function, and the TypeError is answered with 500 | body `{"beneficiary": "0xabc@toString"}` on a server with no faucet named `toString` | 400 with `No faucet running for chain toString`, as for any other unknown chain | not executed | Servers.ToStringChainAsWritten | Servers.HandleRequest |
