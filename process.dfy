/**
  How the faucet's start-up ends when it does not go on: `process.exit(code)`
  after logging a reason, or a thrown exception. A throw rejects the promise
  of `run`, which nobody awaits; what matters here is that the server then
  never listens.
 */
module Process {
  import opened Config

  /** A file written before the process exits. */
  datatype FileWrite = FileWrite(path: string, contents: Value)

  datatype ExitReason =
    | NoChainProvided
    | MissingConfigKey(accessor: string)
    | UnknownFaucetType(faucetType: Value)
    | ConfigFileNotFound(path: string)
    | RestartAfterConfigWrite(write: FileWrite)

  datatype ThrowReason =
    | ConfigPropertyUndefined(accessor: string)
    | DecryptionFailed
    | CannotSetAccountProperty
    | InvalidContractAddress(address: Value)

  datatype Termination = Exit(code: int, reason: ExitReason) | Threw(error: ThrowReason)

  /** One step of set-up: it yields a value and the process goes on, or the process ends. */
  datatype Step<+T> = Continue(value: T) | Stop(end: Termination)

  /** The one exit code the source uses. */
  const ExitFailure := 1
}
