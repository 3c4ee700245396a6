/**
 `LiftControlFacade`: the UI-facing status of connection attempts
 (`isConnecting$`, `connectionError$`). The intents themselves go straight to
 the service; the LiftSystem module composes the two.
 */
module LiftControlFacade {
  import opened Wrappers
  import opened CommunicationAdapter

  /** The one message the facade shows, whatever the adapter's error said. */
  const ErrorMessage: string := "Не удалось подключиться к устройству."

  datatype Status = Status(isConnecting: bool, connectionError: Option<string>)

  function Init(): (s: Status)
    ensures !s.isConnecting && s.connectionError.None?
  {
    Status(false, None)
  }

  /** `connect` before it calls the service: connecting, with no error, from any status. */
  function ConnectStarted(s: Status): (r: Status)
    ensures r.isConnecting && r.connectionError.None?
  {
    Status(true, None)
  }

  /** A settled subscription: the new status and the value the pipeline emits. */
  datatype Completion = Completion(status: Status, emitted: bool)

  /** The adapter's Observable ended. A failure is swallowed: the error becomes
      the fixed message and the pipeline emits `false`; a success leaves the
      error as it was and passes `true` through. `finalize` clears
      `isConnecting` either way. */
  function Finish(s: Status, outcome: Outcome): (c: Completion)
    ensures !c.status.isConnecting
    ensures c.emitted <==> outcome.Succeeded?
    ensures outcome.Succeeded? ==> c.status.connectionError == s.connectionError
    ensures outcome.Failed? ==> c.status.connectionError == Some(ErrorMessage)
  {
    match outcome
    case Succeeded => Completion(s.(isConnecting := false), true)
    case Failed(_) => Completion(Status(false, Some(ErrorMessage)), false)
  }

  /** A single attempt, started and settled: no error stays only after a success. */
  lemma SingleAttemptError(s: Status, outcome: Outcome)
    ensures Finish(ConnectStarted(s), outcome).status.connectionError.None? <==> outcome.Succeeded?
    ensures !Finish(ConnectStarted(s), outcome).status.isConnecting
  {
  }
}
