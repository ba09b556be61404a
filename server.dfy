/**
  The HTTP server: start-up builds one faucet per requested chain, keyed by
  the chain; each request names `address@chain` and is answered with the
  hash of the transaction the chain's faucet sends, or with an error.
 */
module Servers {
  import opened Wrappers
  import opened JsText
  import opened Config
  import opened Process
  import opened EthNodes
  import opened Faucets
  import opened FaucetFactory
  import opened Accounts

  /**
    The outside world during start-up, as fixed answers: the configuration;
    the password typed while the k-th chain is set up; the account
    `accounts.create()` makes then; keystore encryption and decryption (None
    where decryption throws); which address values web3 accepts for a
    contract; the configuration sources; and which files exist.
   */
  datatype Env = Env(
    config: Value,
    password: nat -> string,
    created: nat -> KeyPair,
    encrypt: (string, string) -> Value,
    decrypt: (Value, string) -> Option<KeyPair>,
    acceptsAddress: Value -> bool,
    sources: seq<ConfigSource>,
    fileExists: string -> bool)

  /**
    The k-th iteration of `initializeFaucets`, for `chain`: an account missing
    from the configuration is created and written, which ends the process;
    otherwise the account is unlocked, the node started and the faucet built.
   */
  function SetUpChain(env: Env, chain: string, k: nat): (r: Step<Faucet>)
    ensures r.Continue? ==>
      && r.value.chain == chain
      && Has(env.config, AccountAccessor(chain)) && Has(env.config, WebSocketAccessor(chain))
  {
    if !Has(env.config, AccountAccessor(chain)) then
      Stop(AddNewToConfig(env.config, chain, env.password(k), env.created(k), env.encrypt, env.sources, env.fileExists))
    else
      match UnlockOutcome(env.config, chain, env.password(k), env.decrypt)
      case Stop(end) => Stop(end)
      case Continue(account) =>
        match Start(env.config, chain, account)
        case Stop(end) => Stop(end)
        case Continue(ethNode) => Build(env.config, ethNode, chain, env.acceptsAddress)
  }

  /**
    A chain is set up exactly when its account is in the configuration and
    unlocks, its node starts and its faucet is built; the faucet then runs on
    a node for that chain holding the unlocked account. A missing account
    ends the process through `addNewToConfig`.
   */
  lemma SetUpChainSpec(env: Env, chain: string, k: nat)
    ensures var r := SetUpChain(env, chain, k);
      var unlocked := UnlockOutcome(env.config, chain, env.password(k), env.decrypt);
      && (!Has(env.config, AccountAccessor(chain)) ==>
            r == Stop(AddNewToConfig(env.config, chain, env.password(k), env.created(k), env.encrypt, env.sources, env.fileExists)))
      && (r.Continue? <==>
            && Has(env.config, AccountAccessor(chain)) && unlocked.Continue?
            && Has(env.config, WebSocketAccessor(chain))
            && Build(env.config, EthNode(chain, unlocked.value), chain, env.acceptsAddress).Continue?)
      && (r.Continue? ==>
            && r == Build(env.config, EthNode(chain, unlocked.value), chain, env.acceptsAddress)
            && r.value.chain == chain && r.value.ethNode == EthNode(chain, unlocked.value))
  {
    var unlocked := UnlockOutcome(env.config, chain, env.password(k), env.decrypt);
    if Has(env.config, AccountAccessor(chain)) && unlocked.Continue? && Has(env.config, WebSocketAccessor(chain)) {
      BuildSucceedsExactly(env.config, EthNode(chain, unlocked.value), chain, env.acceptsAddress);
    }
  }

  /**
    A chain named like an inherited member, with no entry of its own under
    `Chains`, is never set up: its account is never in the configuration,
    and the file written for it is the configuration unchanged, so every
    restart ends the same way.
   */
  lemma InheritedChainNeverStarts(env: Env, chain: string, k: nat)
    requires '.' !in chain
    requires InheritedChain(env.config, chain)
    ensures var r := SetUpChain(env, chain, k);
      && r.Stop? && r.end.Exit? && r.end.code == ExitFailure
      && (r.end.reason.RestartAfterConfigWrite? ==> r.end.reason.write.contents == env.config)
  {
    AccountAccessorPath(chain);
    assert AccountPath(chain)[1..] == [chain, "Account"];
    assert Lookup(env.config, AccountPath(chain)) == None;
  }

  /** The set-up of one chain, given the chain and how many chains came before it. */
  type SetUp = (string, nat) -> Step<Faucet>

  function SetUpWith(env: Env): SetUp
  {
    (chain: string, k: nat) => SetUpChain(env, chain, k)
  }

  /** The faucet map after start-up, and how start-up ended if it did not complete. */
  datatype InitResult = InitResult(faucets: map<string, Faucet>, stop: Option<Termination>)

  /** `initializeFaucets` from the k-th chain on, starting from `faucets`. */
  function InitializeFrom(faucets: map<string, Faucet>, chains: seq<string>, setUp: SetUp, k: nat): (r: InitResult)
    ensures forall c :: c in faucets ==> c in r.faucets
    decreases |chains|
  {
    if chains == [] then InitResult(faucets, None)
    else
      match setUp(chains[0], k)
      case Stop(end) => InitResult(faucets, Some(end))
      case Continue(f) => InitializeFrom(faucets[chains[0] := f], chains[1..], setUp, k + 1)
  }

  /** How many leading chains are set up before one ends the process. */
  function Completed(chains: seq<string>, setUp: SetUp, k: nat): (n: nat)
    ensures n <= |chains|
    ensures forall i :: 0 <= i < n ==> setUp(chains[i], k + i).Continue?
    ensures n < |chains| ==> setUp(chains[n], k + n).Stop?
    decreases |chains|
  {
    if chains == [] || setUp(chains[0], k).Stop? then 0
    else
      var n := Completed(chains[1..], setUp, k + 1);
      assert forall i :: 1 <= i < 1 + n ==> chains[i] == chains[1..][i - 1];
      1 + n
  }

  /** Start-up stops at the first chain whose set-up ends the process, with that chain's termination. */
  lemma {:induction false} InitializeStops(faucets: map<string, Faucet>, chains: seq<string>, setUp: SetUp, k: nat)
    ensures var r := InitializeFrom(faucets, chains, setUp, k);
      var n := Completed(chains, setUp, k);
      && (r.stop.None? <==> n == |chains|)
      && (r.stop.Some? ==> r.stop.value == setUp(chains[n], k + n).end)
    decreases |chains|
  {
    if chains != [] && setUp(chains[0], k).Continue? {
      var f := setUp(chains[0], k).value;
      InitializeStops(faucets[chains[0] := f], chains[1..], setUp, k + 1);
      var n := Completed(chains, setUp, k);
      var m := Completed(chains[1..], setUp, k + 1);
      assert n == 1 + m;
      if m < |chains| - 1 {
        assert chains[1..][m] == chains[n];
      }
    }
  }

  /** Start-up keeps the earlier entries and adds one keyed by each chain that was set up. */
  lemma {:induction false} InitializeKeys(faucets: map<string, Faucet>, chains: seq<string>, setUp: SetUp, k: nat)
    ensures forall c :: c in InitializeFrom(faucets, chains, setUp, k).faucets
                        <==> c in faucets || c in chains[..Completed(chains, setUp, k)]
    decreases |chains|
  {
    if chains != [] && setUp(chains[0], k).Continue? {
      var f := setUp(chains[0], k).value;
      var n := Completed(chains, setUp, k);
      var m := Completed(chains[1..], setUp, k + 1);
      assert chains[..n] == [chains[0]] + chains[1..][..m];
      InitializeKeys(faucets[chains[0] := f], chains[1..], setUp, k + 1);
    }
  }

  /** No chain among the first `n` after position `i` is the chain at `i`. */
  predicate LastAmong(chains: seq<string>, n: int, i: int)
  {
    0 <= i < n <= |chains| && forall j :: i < j < n ==> chains[j] != chains[i]
  }

  lemma LastAmongTail(chains: seq<string>, n: int, i: int)
    requires LastAmong(chains, n, i) && i > 0
    ensures LastAmong(chains[1..], n - 1, i - 1)
  {
    forall j | i - 1 < j < n - 1
      ensures chains[1..][j] != chains[1..][i - 1]
    {
      assert chains[1..][j] == chains[j + 1];
    }
  }

  lemma LastAmongHead(chains: seq<string>, n: int)
    requires LastAmong(chains, n, 0)
    ensures chains[0] !in chains[1..n]
  {
    forall j | 0 <= j < n - 1
      ensures chains[1..n][j] != chains[0]
    {
      assert chains[1..n][j] == chains[j + 1];
    }
  }

  /** An entry for a chain not set up again later is the faucet of its own set-up; a chain on the list again is overwritten. */
  lemma {:induction false} InitializeLastWins(faucets: map<string, Faucet>, chains: seq<string>, setUp: SetUp, k: nat, i: nat)
    requires LastAmong(chains, Completed(chains, setUp, k), i)
    ensures chains[i] in InitializeFrom(faucets, chains, setUp, k).faucets
    ensures InitializeFrom(faucets, chains, setUp, k).faucets[chains[i]] == setUp(chains[i], k + i).value
    decreases |chains|
  {
    var n := Completed(chains, setUp, k);
    var tail := chains[1..];
    assert chains != [] && setUp(chains[0], k).Continue?;
    var next := faucets[chains[0] := setUp(chains[0], k).value];
    var m := Completed(tail, setUp, k + 1);
    assert n == 1 + m;
    assert InitializeFrom(faucets, chains, setUp, k) == InitializeFrom(next, tail, setUp, k + 1);
    if i == 0 {
      LastAmongHead(chains, n);
      assert tail[..m] == chains[1..n];
      InitializeFrame(next, tail, setUp, k + 1, chains[0]);
    } else {
      LastAmongTail(chains, n, i);
      assert tail[i - 1] == chains[i];
      InitializeLastWins(next, tail, setUp, k + 1, i - 1);
    }
  }

  lemma NotInPrefixTail(chains: seq<string>, n: nat, c: string)
    requires 1 <= n <= |chains| && c !in chains[..n]
    ensures c != chains[0] && c !in chains[1..][..n - 1]
  {
    assert chains[..n] == [chains[0]] + chains[1..][..n - 1];
  }

  /** Start-up leaves the entry of any chain it did not set up as it was. */
  lemma {:induction false} InitializeFrame(faucets: map<string, Faucet>, chains: seq<string>, setUp: SetUp, k: nat, c: string)
    requires c in faucets && c !in chains[..Completed(chains, setUp, k)]
    ensures c in InitializeFrom(faucets, chains, setUp, k).faucets
    ensures InitializeFrom(faucets, chains, setUp, k).faucets[c] == faucets[c]
    decreases |chains|
  {
    if chains != [] && setUp(chains[0], k).Continue? {
      var tail := chains[1..];
      var next := faucets[chains[0] := setUp(chains[0], k).value];
      var n := Completed(chains, setUp, k);
      var m := Completed(tail, setUp, k + 1);
      assert n == 1 + m;
      NotInPrefixTail(chains, n, c);
      assert InitializeFrom(faucets, chains, setUp, k) == InitializeFrom(next, tail, setUp, k + 1);
      InitializeFrame(next, tail, setUp, k + 1, c);
    }
  }

  /** A start-up that completes has an entry for every listed chain, and no other new entry. */
  lemma StartUpCoversEveryChain(faucets: map<string, Faucet>, chains: seq<string>, setUp: SetUp, k: nat)
    requires InitializeFrom(faucets, chains, setUp, k).stop.None?
    ensures forall c :: c in InitializeFrom(faucets, chains, setUp, k).faucets <==> c in faucets || c in chains
  {
    InitializeStops(faucets, chains, setUp, k);
    InitializeKeys(faucets, chains, setUp, k);
    assert chains[..|chains|] == chains;
  }

  /** How `run` ends: an exit or a throw that rejects its promise, or a server listening on the port. */
  datatype RunOutcome = Stopped(end: Termination) | Listening(port: int)

  class Server {
    const port: int
    var faucets: map<string, Faucet>

    constructor (port: int)
      ensures this.port == port && faucets == map[]
    {
      this.port := port;
      faucets := map[];
    }

    /**
      `run(chains)`: with no chain it exits before any faucet is set up or the
      server listens; otherwise it sets up the faucets and, if start-up
      completes, listens on the port.
     */
    method Run(chains: seq<string>, env: Env) returns (outcome: RunOutcome)
      modifies this
      ensures chains == [] ==> outcome == Stopped(Exit(ExitFailure, NoChainProvided)) && faucets == old(faucets)
      ensures chains != [] ==>
        var init := InitializeFrom(old(faucets), chains, SetUpWith(env), 0);
        && faucets == init.faucets
        && outcome == (if init.stop.Some? then Stopped(init.stop.value) else Listening(port))
    {
      if |chains| == 0 {
        return Stopped(Exit(ExitFailure, NoChainProvided));
      }
      var stop := InitializeFaucets(chains, env);
      if stop.Some? {
        return Stopped(stop.value);
      }
      outcome := Listening(port);
    }

    /** `initializeFaucets(chains)`: one account, node and faucet per chain, stored under the chain. */
    method InitializeFaucets(chains: seq<string>, env: Env) returns (stop: Option<Termination>)
      modifies this
      ensures InitResult(faucets, stop) == InitializeFrom(old(faucets), chains, SetUpWith(env), 0)
    {
      var k := 0;
      while k < |chains|
        invariant 0 <= k <= |chains|
        invariant InitializeFrom(faucets, chains[k..], SetUpWith(env), k) == InitializeFrom(old(faucets), chains, SetUpWith(env), 0)
      {
        var chain := chains[k];
        assert chains[k..][0] == chain && chains[k..][1..] == chains[k + 1..];
        assert SetUpWith(env)(chain, k) == SetUpChain(env, chain, k);
        var account := new Account(chain);
        if !account.IsInConfig(env.config) {
          var newPassword := env.password(k);
          return Some(AddNewToConfig(env.config, chain, newPassword, env.created(k), env.encrypt, env.sources, env.fileExists));
        }
        var password := env.password(k);
        var thrown := account.Unlock(env.config, password, env.decrypt);
        if thrown.Some? {
          return thrown;
        }
        var started := Start(env.config, chain, account.web3Account.value);
        if started.Stop? {
          return Some(started.end);
        }
        var faucet := Build(env.config, started.value, chain, env.acceptsAddress);
        if faucet.Stop? {
          return Some(faucet.end);
        }
        faucets := faucets[chain := faucet.value];
        k := k + 1;
      }
      assert chains[k..] == [];
      return None;
    }
  }

  const BadBodyMessage := "Could not read body. You must pass {\"beneficiary\": \"0xaddress@chainId\"}"
  const FillFailedMessage := "Could not fill address"

  function NoFaucetMessage(chain: string): string
  {
    "No faucet running for chain " + chain
  }

  /**
    What `JSON.parse(body).beneficiary.split` meets: a body that is not JSON,
    a parsed value without a string `beneficiary`, or the beneficiary string.
   */
  datatype ParsedBody = NotJson | NoBeneficiaryString | WithBeneficiary(beneficiary: string)

  /** The status code and the JSON object `response.end` is given. */
  datatype Reply = Reply(status: int, body: map<string, string>)

  /** The exceptions that leave the request handler uncaught. */
  datatype EscapedError = JsonSyntaxError | BeneficiaryNotSplittable

  /** A reply, or an exception that escapes the handler so that no reply is written. */
  datatype HandlerOutcome = Responded(reply: Reply) | Escaped(error: EscapedError)

  /** What the handler does to the faucets: look one up, and issue requests to its node. */
  datatype Event = FaucetLookup(chain: string) | NodeCall(request: NodeRequest)

  datatype HandlerRun = HandlerRun(events: seq<Event>, outcome: HandlerOutcome)

  function BadRequest(message: string): Reply
  {
    Reply(400, map["error" := message])
  }

  /** The reply to a fill: the hash with the default status, or 500 with the error's text. */
  function Render(result: FillResult): (reply: Reply)
    ensures reply.status == 200 <==> result.TxHash?
    ensures result.TxHash? ==> reply.body == map["txHash" := result.hash]
    ensures !result.TxHash? ==> reply == Reply(500, map["error" := FillFailedMessage, "details" := result.details])
  {
    match result
    case TxHash(hash) => Reply(200, map["txHash" := hash])
    case FillFailed(details) => Reply(500, map["error" := FillFailedMessage, "details" := details])
    case FillThrew(details) => Reply(500, map["error" := FillFailedMessage, "details" := details])
  }

  /** `const [address, chain] = beneficiary.split('@')`, then `!address || !chain` rejects. */
  function ParseBeneficiary(beneficiary: string): (r: Option<(string, string)>)
    ensures r.Some? ==> r.value.0 != "" && r.value.1 != "" && '@' !in r.value.0 && '@' !in r.value.1
  {
    var parts := Split(beneficiary, '@');
    var address := parts[0];
    var chain := if |parts| >= 2 then Some(parts[1]) else None;
    if address == "" || chain.None? || chain.value == "" then None else Some((address, chain.value))
  }

  /** `b` is `a@c`, followed by nothing or by a further '@' and anything. */
  predicate SplitsAs(b: string, a: string, c: string)
  {
    var n := |a| + 1 + |c|;
    && '@' !in a && '@' !in c
    && n <= |b| && b[..n] == a + "@" + c
    && (n == |b| || b[n] == '@')
  }

  /** A beneficiary the split accepts reads as its address, '@', its chain, and an optional rest after a further '@'. */
  lemma ParseBeneficiaryReads(b: string, a: string, c: string)
    requires ParseBeneficiary(b) == Some((a, c))
    ensures a != "" && c != "" && SplitsAs(b, a, c)
  {
    var parts := Split(b, '@');
    assert |parts| >= 2 && parts[0] == a && parts[1] == c;
    var i := IndexOf(b, '@');
    SplitHead(b, '@');
    var r := b[i + 1..];
    SplitHead(r, '@');
    var j := IndexOf(r, '@');
    assert a == b[..i] && i < |b| && b[i] == '@';
    assert c == r[..j];
    CutAt(b, i, j);
    if i + 1 + j < |b| { assert b[i + 1 + j] == r[j]; }
  }

  lemma CutAt(b: string, i: nat, j: nat)
    requires i < |b| && i + 1 + j <= |b|
    ensures b[..i + 1 + j] == b[..i] + [b[i]] + b[i + 1..][..j]
  {
  }

  /** A beneficiary that reads as a non-empty address and chain is accepted with exactly those. */
  lemma ParseBeneficiaryAccepts(b: string, a: string, c: string)
    requires a != "" && c != "" && SplitsAs(b, a, c)
    ensures ParseBeneficiary(b) == Some((a, c))
  {
    var n := |a| + 1 + |c|;
    if n == |b| {
      assert b == b[..n];
      SplitTwo(a, c);
      ParseReadsFirstTwo(b, a, c, []);
    } else {
      var rest := b[n + 1..];
      assert b == b[..n] + [b[n]] + rest;
      assert b == a + "@" + c + "@" + rest;
      SplitTwoThenRest(a, c, rest);
      ParseReadsFirstTwo(b, a, c, Split(rest, '@'));
    }
  }


  /** The split reads the text before the first '@' as the address and the text up to the next '@' as the chain. */
  lemma ParseBeneficiaryIff(b: string, a: string, c: string)
    ensures ParseBeneficiary(b) == Some((a, c)) <==> a != "" && c != "" && SplitsAs(b, a, c)
  {
    if ParseBeneficiary(b) == Some((a, c)) {
      ParseBeneficiaryReads(b, a, c);
    }
    if a != "" && c != "" && SplitsAs(b, a, c) {
      ParseBeneficiaryAccepts(b, a, c);
    }
  }

  /** The parse reads only the first two segments of the split. */
  lemma ParseReadsFirstTwo(b: string, a: string, c: string, later: seq<string>)
    requires Split(b, '@') == [a, c] + later
    ensures ParseBeneficiary(b) == if a == "" || c == "" then None else Some((a, c))
  {
  }

  lemma SplitTwoThenRest(a: string, c: string, rest: string)
    requires '@' !in a && '@' !in c
    ensures Split(a + "@" + c + "@" + rest, '@') == [a, c] + Split(rest, '@')
  {
    assert a + "@" + c + "@" + rest == a + ['@'] + (c + ['@'] + rest);
    SplitCons(a, '@', c + ['@'] + rest);
    SplitCons(c, '@', rest);
  }

  lemma SplitTwo(a: string, c: string)
    requires '@' !in a && '@' !in c
    ensures Split(a + "@" + c, '@') == [a, c]
  {
    assert a + "@" + c == a + ['@'] + c;
    SplitCons(a, '@', c);
    assert Split(c, '@') == [c];
  }

  /** Segments after the chain are ignored. */
  lemma LaterSegmentsIgnored(a: string, c: string, rest: string)
    requires '@' !in a && '@' !in c
    ensures ParseBeneficiary(a + "@" + c + "@" + rest) == ParseBeneficiary(a + "@" + c)
  {
    SplitTwoThenRest(a, c, rest);
    SplitTwo(a, c);
    ParseReadsFirstTwo(a + "@" + c + "@" + rest, a, c, Split(rest, '@'));
    ParseReadsFirstTwo(a + "@" + c, a, c, []);
  }



  /** What `self.faucets[chain]` finds on the faucet object. */
  datatype Slot = Own(faucet: Faucet) | Inherited(name: string) | Absent

  /** Only entries the server stored count: the evidently intended lookup. */
  function OwnSlot(faucets: map<string, Faucet>, chain: string): Slot
  {
    if chain in faucets then Own(faucets[chain]) else Absent
  }

  /** JavaScript's property read on the `{}`-initialised faucet object: inherited members are found too. */
  function JsSlot(faucets: map<string, Faucet>, chain: string): Slot
  {
    if chain in faucets then Own(faucets[chain])
    else if chain in ObjectPrototypeMembers then Inherited(chain)
    else Absent
  }

  /** The text of the TypeError thrown when the looked-up value has no `fill` function. */
  const NotAFunctionError := "TypeError: faucet.fill is not a function"

  function Calls(requests: seq<NodeRequest>): (events: seq<Event>)
    ensures |events| == |requests|
    ensures forall i :: 0 <= i < |requests| ==> events[i] == NodeCall(requests[i])
  {
    if requests == [] then [] else [NodeCall(requests[0])] + Calls(requests[1..])
  }

  /** The `end` handler of `requestHandler`, for a given reading of `self.faucets[chain]`. */
  function Handle(lookup: string -> Slot, body: string, parse: string -> ParsedBody,
                  answer: (EthNode, NodeRequest) -> NodeAnswer): HandlerRun
  {
    if body == "" then HandlerRun([], Responded(BadRequest(BadBodyMessage)))
    else
      match parse(body)
      case NotJson => HandlerRun([], Escaped(JsonSyntaxError))
      case NoBeneficiaryString => HandlerRun([], Escaped(BeneficiaryNotSplittable))
      case WithBeneficiary(beneficiary) =>
        match ParseBeneficiary(beneficiary)
        case None => HandlerRun([], Responded(BadRequest(BadBodyMessage)))
        case Some((address, chain)) =>
          match lookup(chain)
          case Absent => HandlerRun([FaucetLookup(chain)], Responded(BadRequest(NoFaucetMessage(chain))))
          case Inherited(_) => HandlerRun([FaucetLookup(chain)], Responded(Render(FillThrew(NotAFunctionError))))
          case Own(faucet) =>
            var fill := Fill(faucet, address, req => answer(faucet.ethNode, req));
            HandlerRun([FaucetLookup(chain)] + Calls(fill.issued), Responded(Render(fill.result)))
  }

  /** The body names a chain with no faucet of its own that every plain object inherits. */
  predicate NamesInheritedMember(faucets: map<string, Faucet>, body: string, parse: string -> ParsedBody)
  {
    && body != "" && parse(body).WithBeneficiary? && ParseBeneficiary(parse(body).beneficiary).Some?
    && var chain := ParseBeneficiary(parse(body).beneficiary).value.1;
       chain !in faucets && chain in ObjectPrototypeMembers
  }

  /**
    `requestHandler` as written: the lookup is a JavaScript property read, so
    a chain named like an inherited member without a faucet of its own is
    "found", and calling its missing `fill` is answered with 500; every
    other request is handled as with the intended lookup.
   */
  function HandleRequestAsWritten(faucets: map<string, Faucet>, body: string, parse: string -> ParsedBody,
                                  answer: (EthNode, NodeRequest) -> NodeAnswer): (run: HandlerRun)
    ensures NamesInheritedMember(faucets, body, parse) ==>
      var chain := ParseBeneficiary(parse(body).beneficiary).value.1;
      run == HandlerRun([FaucetLookup(chain)],
                        Responded(Reply(500, map["error" := FillFailedMessage, "details" := NotAFunctionError])))
    ensures !NamesInheritedMember(faucets, body, parse) ==> run == HandleRequest(faucets, body, parse, answer)
  {
    Handle(c => JsSlot(faucets, c), body, parse, answer)
  }

  /**
    `requestHandler` with the lookup the code evidently intends (only the
    faucets the server stored). An empty body, or a beneficiary whose address
    or chain is empty or missing, gets 400 without any lookup; an unknown
    chain gets 400 naming it, after the lookup only; a known chain's faucet
    is filled exactly once for the address and the reply is rendered from the
    fill; a body that is not JSON, or has no beneficiary string, escapes.
   */
  function HandleRequest(faucets: map<string, Faucet>, body: string, parse: string -> ParsedBody,
                         answer: (EthNode, NodeRequest) -> NodeAnswer): (run: HandlerRun)
    ensures body == "" ==> run == HandlerRun([], Responded(BadRequest(BadBodyMessage)))
    ensures body != "" && parse(body).NotJson? ==> run == HandlerRun([], Escaped(JsonSyntaxError))
    ensures body != "" && parse(body).NoBeneficiaryString? ==> run == HandlerRun([], Escaped(BeneficiaryNotSplittable))
    ensures body != "" && parse(body).WithBeneficiary? && ParseBeneficiary(parse(body).beneficiary).None? ==>
      run == HandlerRun([], Responded(BadRequest(BadBodyMessage)))
    ensures body != "" && parse(body).WithBeneficiary? && ParseBeneficiary(parse(body).beneficiary).Some? ==>
      var (address, chain) := ParseBeneficiary(parse(body).beneficiary).value;
      && (chain !in faucets ==>
            run == HandlerRun([FaucetLookup(chain)], Responded(BadRequest(NoFaucetMessage(chain)))))
      && (chain in faucets ==>
            var faucet := faucets[chain];
            var request := FillRequest(faucet, address);
            && run.events == [FaucetLookup(chain), NodeCall(request)]
            && run.outcome == Responded(Render(Fill(faucet, address, req => answer(faucet.ethNode, req)).result)))
  {
    var run := Handle(c => OwnSlot(faucets, c), body, parse, answer);
    if body != "" && parse(body).WithBeneficiary? && ParseBeneficiary(parse(body).beneficiary).Some? then
      var (address, chain) := ParseBeneficiary(parse(body).beneficiary).value;
      if chain in faucets then
        var faucet := faucets[chain];
        var fill := Fill(faucet, address, req => answer(faucet.ethNode, req));
        assert Calls(fill.issued) == [NodeCall(FillRequest(faucet, address))];
        run
      else run
    else run
  }

  /** The node calls among a run's events. */
  function NodeCalls(events: seq<Event>): (calls: seq<NodeRequest>)
    ensures |calls| <= |events|
  {
    if events == [] then []
    else if events[0].NodeCall? then [events[0].request] + NodeCalls(events[1..])
    else NodeCalls(events[1..])
  }

  /** The body names a beneficiary that reads as a non-empty address and a non-empty chain. */
  predicate WellFormed(body: string, parse: string -> ParsedBody, address: string, chain: string)
  {
    && body != "" && parse(body).WithBeneficiary?
    && address != "" && chain != "" && SplitsAs(parse(body).beneficiary, address, chain)
  }

  /**
    A fill happens exactly when the body is well formed and names a chain
    with a faucet; it is then the only node call, made once for that
    address through that chain's faucet.
   */
  lemma FillHappensExactlyWhen(faucets: map<string, Faucet>, body: string, parse: string -> ParsedBody,
                               answer: (EthNode, NodeRequest) -> NodeAnswer, address: string, chain: string)
    requires WellFormed(body, parse, address, chain)
    ensures var run := HandleRequest(faucets, body, parse, answer);
      && (chain in faucets ==> NodeCalls(run.events) == [FillRequest(faucets[chain], address)])
      && (chain !in faucets ==>
            NodeCalls(run.events) == [] && run.outcome == Responded(BadRequest(NoFaucetMessage(chain))))
  {
    ParseBeneficiaryIff(parse(body).beneficiary, address, chain);
    var run := HandleRequest(faucets, body, parse, answer);
    if chain in faucets {
      assert run.events[1..] == [NodeCall(FillRequest(faucets[chain], address))];
      assert NodeCalls(run.events[1..][1..]) == [];
    } else {
      assert run.events[1..] == [];
    }
  }

  /** A body that is empty, or whose beneficiary has no reading as address and chain, gets 400 with nothing looked up. */
  lemma MalformedBodyRejected(faucets: map<string, Faucet>, body: string, parse: string -> ParsedBody,
                              answer: (EthNode, NodeRequest) -> NodeAnswer)
    requires body == "" || (parse(body).WithBeneficiary? &&
      forall a, c :: !(a != "" && c != "" && SplitsAs(parse(body).beneficiary, a, c)))
    ensures HandleRequest(faucets, body, parse, answer) == HandlerRun([], Responded(BadRequest(BadBodyMessage)))
  {
    if body != "" {
      var b := parse(body).beneficiary;
      if ParseBeneficiary(b).Some? {
        var (a, c) := ParseBeneficiary(b).value;
        ParseBeneficiaryIff(b, a, c);
      }
    }
  }

  /** Whether the node's failure is an error event or a synchronous throw, the reply is the same. */
  lemma FailureKindsAgree(faucets: map<string, Faucet>, body: string, parse: string -> ParsedBody,
                          answer: (EthNode, NodeRequest) -> NodeAnswer, answer': (EthNode, NodeRequest) -> NodeAnswer)
    requires forall node, req :: answer(node, req).Submitted? <==> answer'(node, req).Submitted?
    requires forall node, req :: answer(node, req).Submitted? ==> answer(node, req) == answer'(node, req)
    requires forall node, req :: !answer(node, req).Submitted? ==> answer(node, req).error == answer'(node, req).error
    ensures HandleRequest(faucets, body, parse, answer) == HandleRequest(faucets, body, parse, answer')
  {
  }

  /** A body that is not JSON, or has no beneficiary string, is never answered with 400: the exception escapes. */
  lemma UnparsedBodyEscapes(faucets: map<string, Faucet>, body: string, parse: string -> ParsedBody,
                            answer: (EthNode, NodeRequest) -> NodeAnswer)
    requires body != "" && !parse(body).WithBeneficiary?
    ensures HandleRequest(faucets, body, parse, answer).outcome.Escaped?
    ensures HandleRequest(faucets, body, parse, answer).events == []
  {
  }

  /** The reply is 200 exactly when the node reports a transaction hash, and then carries that hash. */
  lemma SuccessCarriesHash(faucets: map<string, Faucet>, body: string, parse: string -> ParsedBody,
                           answer: (EthNode, NodeRequest) -> NodeAnswer, address: string, chain: string)
    requires WellFormed(body, parse, address, chain) && chain in faucets
    ensures var run := HandleRequest(faucets, body, parse, answer);
      var nodeAnswer := answer(faucets[chain].ethNode, FillRequest(faucets[chain], address));
      && run.outcome.Responded?
      && (run.outcome.reply.status == 200 <==> nodeAnswer.Submitted?)
      && (nodeAnswer.Submitted? ==> run.outcome.reply.body == map["txHash" := nodeAnswer.transactionHash])
      && (!nodeAnswer.Submitted? ==> run.outcome.reply == Reply(500, map["error" := FillFailedMessage, "details" := nodeAnswer.error]))
  {
    ParseBeneficiaryIff(parse(body).beneficiary, address, chain);
  }

  /** As written, a chain named like an inherited member, with no faucet of its own, gets 500 instead of 400. */
  lemma InheritedNameAsWritten(faucets: map<string, Faucet>, body: string, parse: string -> ParsedBody,
                               answer: (EthNode, NodeRequest) -> NodeAnswer, address: string, chain: string)
    requires chain in ObjectPrototypeMembers && chain !in faucets && chain != "" && '@' !in chain
    requires body != "" && parse(body) == WithBeneficiary(address + "@" + chain) && address != "" && '@' !in address
    ensures HandleRequestAsWritten(faucets, body, parse, answer)
      == HandlerRun([FaucetLookup(chain)], Responded(Reply(500, map["error" := FillFailedMessage, "details" := NotAFunctionError])))
    ensures HandleRequest(faucets, body, parse, answer)
      == HandlerRun([FaucetLookup(chain)], Responded(BadRequest(NoFaucetMessage(chain))))
  {
    var b := address + "@" + chain;
    assert b[..|address| + 1 + |chain|] == b;
    ParseBeneficiaryIff(b, address, chain);
    assert ParseBeneficiary(b) == Some((address, chain));
  }

  /** The concrete case: `0xabc@toString` with no faucets. */
  lemma ToStringChainAsWritten(body: string, parse: string -> ParsedBody, answer: (EthNode, NodeRequest) -> NodeAnswer)
    requires body != "" && parse(body) == WithBeneficiary("0xabc@toString")
    ensures HandleRequestAsWritten(map[], body, parse, answer).outcome
      == Responded(Reply(500, map["error" := FillFailedMessage, "details" := NotAFunctionError]))
    ensures HandleRequest(map[], body, parse, answer).outcome == Responded(BadRequest(NoFaucetMessage("toString")))
  {
    assert "0xabc" + "@" + "toString" == "0xabc@toString";
    InheritedNameAsWritten(map[], body, parse, answer, "0xabc", "toString");
  }

  /**
    For a request that does not name an inherited member without a faucet of
    its own, the code as written and the intended lookup behave alike.
   */
  lemma AsWrittenAgreesOtherwise(faucets: map<string, Faucet>, body: string, parse: string -> ParsedBody,
                                 answer: (EthNode, NodeRequest) -> NodeAnswer)
    requires body != "" && parse(body).WithBeneficiary? && ParseBeneficiary(parse(body).beneficiary).Some? ==>
      var chain := ParseBeneficiary(parse(body).beneficiary).value.1;
      chain !in ObjectPrototypeMembers || chain in faucets
    ensures HandleRequestAsWritten(faucets, body, parse, answer) == HandleRequest(faucets, body, parse, answer)
  {
  }
}
