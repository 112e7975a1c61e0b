/** Values shared by the command processor and the command handlers:
    commands' verdicts, thrown errors and the aggregate of verdicts. */
module Commands {

  datatype Option<T> = None | Some(value: T)

  /** A thrown exception, reduced to its Message. */
  datatype Error = Error(message: string)

  /** What a call into code that may throw does: it returns a value or throws. */
  datatype Outcome<T> = Returned(value: T) | Threw(error: Error)

  /** One handler's verdict: a success flag and an optional message. */
  datatype CommandResult = CommandResult(success: bool, message: Option<string>)

  /** The name of a command's type, the key under which its handlers are registered. */
  type CommandType = string

  /** A handler's Handle, seen from the processor: a command in, an outcome out. */
  type Handler<!C> = C -> Outcome<CommandResult>

  /** The aggregate's overall verdict. Chosen here as the conjunction of the
      individual verdicts (vacuously true for no results). */
  predicate Succeeded(results: seq<CommandResult>): (ok: bool)
    ensures ok <==> forall r :: r in results ==> r.success
    ensures results == [] ==> ok
  {
    forall k :: 0 <= k < |results| ==> results[k].success
  }
}
