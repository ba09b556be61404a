/**
  The per-chain signing account and its place in the configuration. The
  account's keystore lives under `Chains.<chain>.Account`; a missing one is
  created, written into the configuration file, and the process exits so
  that it can be restarted with the new configuration.
 */
module Accounts {
  import opened Wrappers
  import opened JsText
  import opened Config
  import opened Process
  import opened EthNodes

  function AccountAccessor(chain: string): string
  {
    ChainAccessor(chain, "Account")
  }

  /** The object path `updateConfigAccount` assigns: `configObject['Chains'][chain]['Account']`. */
  function AccountPath(chain: string): seq<string>
  {
    ["Chains", chain, "Account"]
  }

  /** For a chain name without '.', the accessor reads exactly the object path the update writes. */
  lemma AccountAccessorPath(chain: string)
    requires '.' !in chain
    ensures Split(AccountAccessor(chain), '.') == AccountPath(chain)
  {
    var key := ["Account"];
    assert Join(key, '.') == "Account";
    ChainAccessorPath(chain, key);
  }

  /** A configuration source as node-config lists it; only its file name matters here. */
  datatype ConfigSource = ConfigSource(name: string)

  /** The source's test: the last four characters of the name are `json`. */
  predicate IsJsonSource(source: ConfigSource)
  {
    Substring(source.name, |source.name| - 4) == "json"
  }

  /** The test is "the name ends in `json`"; in particular a matching name is never empty. */
  lemma JsonSourceByName(source: ConfigSource)
    ensures IsJsonSource(source) <==> EndsWith(source.name, "json")
    ensures IsJsonSource(source) ==> source.name != ""
  {
    LastFourIs(source.name, "json");
  }

  /** `i` is the first source, in list order, whose name passes the test. */
  predicate FirstJsonAt(sources: seq<ConfigSource>, i: int)
  {
    && 0 <= i < |sources|
    && IsJsonSource(sources[i])
    && forall j :: 0 <= j < i ==> !IsJsonSource(sources[j])
  }

  /** The name of the first JSON source, or `''` when there is none. */
  function FirstJsonSource(sources: seq<ConfigSource>): (name: string)
    ensures name == "" <==> forall i :: 0 <= i < |sources| ==> !IsJsonSource(sources[i])
    ensures forall i :: FirstJsonAt(sources, i) ==> name == sources[i].name
  {
    if sources == [] then ""
    else if IsJsonSource(sources[0]) then
      JsonSourceByName(sources[0]);
      sources[0].name
    else
      var rest := FirstJsonSource(sources[1..]);
      assert forall i :: FirstJsonAt(sources, i) ==> i > 0 && FirstJsonAt(sources[1..], i - 1);
      rest
  }

  /**
    `unlock(password)`: the keystore is read with `config.get`, which throws
    on an undefined key, and decrypted with the password; a failed
    decryption throws as well.
   */
  function UnlockOutcome(cfg: Value, chain: string, password: string, decrypt: (Value, string) -> Option<KeyPair>): (r: Step<KeyPair>)
    ensures r.Stop? ==> r.end.Threw?
    ensures !Has(cfg, AccountAccessor(chain)) ==> r == Stop(Threw(ConfigPropertyUndefined(AccountAccessor(chain))))
    ensures Has(cfg, AccountAccessor(chain)) ==>
      (r.Continue? <==> decrypt(Get(cfg, AccountAccessor(chain)).value, password).Some?)
    ensures r.Continue? ==>
      && Has(cfg, AccountAccessor(chain))
      && r.value == decrypt(Get(cfg, AccountAccessor(chain)).value, password).value
  {
    if !Has(cfg, AccountAccessor(chain)) then Stop(Threw(ConfigPropertyUndefined(AccountAccessor(chain))))
    else
      match decrypt(Get(cfg, AccountAccessor(chain)).value, password)
      case Some(account) => Continue(account)
      case None => Stop(Threw(DecryptionFailed))
  }

  /**
    `configObject['Chains'][chain]` is no own entry of `Chains` but a member
    every plain object inherits (`toString`, `constructor`, ...): the source
    then assigns `Account` on that built-in, which JSON serialisation never
    sees.
   */
  predicate InheritedChain(cfg: Value, chain: string)
  {
    var chains := Lookup(cfg, ["Chains"]);
    IsObject(chains) && chain !in chains.value.fields && chain in ObjectPrototypeMembers
  }

  /**
    `updateConfigAccount(encryptedAccount)`. It sets `Account` in the
    chain's object of a copy of the configuration, finds the first JSON
    source, and exits: without writing when that file cannot be found (`''`
    never can), after writing the updated configuration to it otherwise. The
    assignment throws a TypeError when the chain's value is neither an object
    nor an inherited member; on an inherited member it succeeds but leaves the
    written configuration as it was. It never returns normally.
   */
  function UpdateConfigAccount(cfg: Value, chain: string, encryptedAccount: Value, sources: seq<ConfigSource>,
                               fileExists: string -> bool): (end: Termination)
    ensures end.Threw? <==> !IsObject(Lookup(cfg, ["Chains", chain])) && !InheritedChain(cfg, chain)
    ensures end.Threw? ==> end.error == CannotSetAccountProperty
    ensures end.Exit? ==> end.code == ExitFailure
    ensures end.Exit? ==> end.reason.ConfigFileNotFound? || end.reason.RestartAfterConfigWrite?
    ensures end.Exit? && end.reason.ConfigFileNotFound? ==>
      var path := end.reason.path;
      path == FirstJsonSource(sources) && (path == "" || !fileExists(path))
    ensures end.Exit? && end.reason.RestartAfterConfigWrite? ==>
      var w := end.reason.write;
      w.path == FirstJsonSource(sources) && w.path != "" && fileExists(w.path)
    ensures end.Exit? && end.reason.RestartAfterConfigWrite? && InheritedChain(cfg, chain) ==>
      end.reason.write.contents == cfg
    ensures end.Exit? && end.reason.RestartAfterConfigWrite? && !InheritedChain(cfg, chain) ==>
      var w := end.reason.write;
      && Lookup(w.contents, AccountPath(chain)) == Some(encryptedAccount)
      && forall q :: !IsPrefix(q, AccountPath(chain)) && !IsPrefix(AccountPath(chain), q)
                     ==> Lookup(w.contents, q) == Lookup(cfg, q)
  {
    var path := AccountPath(chain);
    SetAtDefined(cfg, path, encryptedAccount);
    assert path[..|path| - 1] == ["Chains", chain];
    var result :=
      if InheritedChain(cfg, chain) then Some(cfg)
      else SetAt(cfg, path, encryptedAccount);
    match result
    case None => Threw(CannotSetAccountProperty)
    case Some(updated) =>
      assert !InheritedChain(cfg, chain) ==> Lookup(updated, path) == Some(encryptedAccount) by {
        if !InheritedChain(cfg, chain) {
          SetAtBelow(cfg, path, encryptedAccount, []);
          assert path + [] == path;
        }
      }
      assert !InheritedChain(cfg, chain) ==>
        forall q :: !IsPrefix(q, path) && !IsPrefix(path, q) ==> Lookup(updated, q) == Lookup(cfg, q) by {
        if !InheritedChain(cfg, chain) {
          forall q | !IsPrefix(q, path) && !IsPrefix(path, q) ensures Lookup(updated, q) == Lookup(cfg, q) {
            SetAtFrame(cfg, path, encryptedAccount, q);
          }
        }
      }
      var source := FirstJsonSource(sources);
      if source == "" || !fileExists(source) then Exit(ExitFailure, ConfigFileNotFound(source))
      else Exit(ExitFailure, RestartAfterConfigWrite(FileWrite(source, updated)))
  }

  /**
    `addNewToConfig(password)`: a freshly created account, encrypted under
    the password, is what `updateConfigAccount` writes; for an inherited
    chain name the file is written unchanged.
   */
  function AddNewToConfig(cfg: Value, chain: string, password: string, created: KeyPair,
                          encrypt: (string, string) -> Value, sources: seq<ConfigSource>,
                          fileExists: string -> bool): (end: Termination)
    ensures end.Exit? && end.reason.RestartAfterConfigWrite? && !InheritedChain(cfg, chain) ==>
      Lookup(end.reason.write.contents, AccountPath(chain)) == Some(encrypt(created.privateKey, password))
    ensures end.Exit? && end.reason.RestartAfterConfigWrite? && InheritedChain(cfg, chain) ==>
      end.reason.write.contents == cfg
    ensures end.Exit? ==> end.code == ExitFailure
    ensures end.Threw? <==> !IsObject(Lookup(cfg, ["Chains", chain])) && !InheritedChain(cfg, chain)
  {
    UpdateConfigAccount(cfg, chain, encrypt(created.privateKey, password), sources, fileExists)
  }

  /**
    After a restart on the written file, a chain without '.' in its name finds
    the written keystore in the configuration, unless the chain is named like
    an inherited member: then the file holds no keystore for it, so the
    restarted process creates and writes an account again.
   */
  lemma WrittenAccountIsInConfig(cfg: Value, chain: string, encryptedAccount: Value, sources: seq<ConfigSource>,
                                 fileExists: string -> bool)
    requires '.' !in chain
    requires UpdateConfigAccount(cfg, chain, encryptedAccount, sources, fileExists).Exit?
    requires UpdateConfigAccount(cfg, chain, encryptedAccount, sources, fileExists).reason.RestartAfterConfigWrite?
    ensures var w := UpdateConfigAccount(cfg, chain, encryptedAccount, sources, fileExists).reason.write;
      && (Has(w.contents, AccountAccessor(chain)) <==> !InheritedChain(cfg, chain))
      && (!InheritedChain(cfg, chain) ==> Get(w.contents, AccountAccessor(chain)) == Some(encryptedAccount))
  {
    AccountAccessorPath(chain);
    if InheritedChain(cfg, chain) {
      assert Lookup(cfg, AccountPath(chain)) == None by {
        assert AccountPath(chain)[1..] == [chain, "Account"];
      }
    }
  }

  /**
    When no source is a JSON file the path is `''`, which never exists, so
    the process exits without writing, whether the chain's value is an object
    or an inherited member.
   */
  lemma NoJsonSourceWritesNothing(cfg: Value, chain: string, encryptedAccount: Value, sources: seq<ConfigSource>,
                                  fileExists: string -> bool)
    requires forall i :: 0 <= i < |sources| ==> !IsJsonSource(sources[i])
    requires IsObject(Lookup(cfg, ["Chains", chain])) || InheritedChain(cfg, chain)
    ensures UpdateConfigAccount(cfg, chain, encryptedAccount, sources, fileExists) == Exit(ExitFailure, ConfigFileNotFound(""))
  {
  }

  /** An account: its chain, its configuration accessor, and the web3 account once it is unlocked. */
  class Account {
    const chain: string
    const accountConfigAccessor: string := AccountAccessor(chain)
    var web3Account: Option<KeyPair>

    constructor (chain: string)
      ensures this.chain == chain && web3Account == None
    {
      this.chain := chain;
      web3Account := None;
    }

    /** `isInConfig()`: the configuration has the account accessor; for a chain without '.', its `Account` entry. */
    function IsInConfig(cfg: Value): (inConfig: bool)
      ensures inConfig <==> Has(cfg, AccountAccessor(chain))
      ensures '.' !in chain ==> (inConfig <==> Lookup(cfg, AccountPath(chain)).Some?)
    {
      if '.' !in chain then AccountAccessorPath(chain); Has(cfg, accountConfigAccessor)
      else Has(cfg, accountConfigAccessor)
    }

    /** `unlock(password)`: on success the decrypted account becomes the unlocked one; on a throw nothing changes. */
    method Unlock(cfg: Value, password: string, decrypt: (Value, string) -> Option<KeyPair>) returns (thrown: Option<Termination>)
      modifies this
      ensures var u := UnlockOutcome(cfg, chain, password, decrypt);
        if u.Continue? then web3Account == Some(u.value) && thrown == None
        else web3Account == old(web3Account) && thrown == Some(u.end)
    {
      if !Has(cfg, accountConfigAccessor) {
        return Some(Threw(ConfigPropertyUndefined(accountConfigAccessor)));
      }
      var keyStore := Get(cfg, accountConfigAccessor).value;
      var decrypted := decrypt(keyStore, password);
      if decrypted.None? {
        return Some(Threw(DecryptionFailed));
      }
      web3Account := decrypted;
      thrown := None;
    }

    /** The `address` getter: the unlocked account's address; reading it before `unlock` throws (None). */
    function Address(): (address: Option<string>)
      reads this
      ensures address.Some? <==> web3Account.Some?
      ensures address.Some? ==> address.value == web3Account.value.address
    {
      match web3Account
      case Some(account) => Some(account.address)
      case None => None
    }

    /** The `privateKey` getter: the unlocked account's private key; None before `unlock`. */
    function PrivateKey(): (privateKey: Option<string>)
      reads this
      ensures privateKey.Some? <==> web3Account.Some?
      ensures privateKey.Some? ==> privateKey.value == web3Account.value.privateKey
    {
      match web3Account
      case Some(account) => Some(account.privateKey)
      case None => None
    }

    /** `getConfigSource()`: scans the sources in order and returns the first JSON one's name, else `''`. */
    method GetConfigSource(sources: seq<ConfigSource>) returns (name: string)
      ensures name == FirstJsonSource(sources)
    {
      var i := 0;
      while i < |sources|
        invariant 0 <= i <= |sources|
        invariant FirstJsonSource(sources[i..]) == FirstJsonSource(sources)
      {
        if IsJsonSource(sources[i]) {
          return sources[i].name;
        }
        assert sources[i..][1..] == sources[i + 1..];
        i := i + 1;
      }
      return "";
    }
  }
}
