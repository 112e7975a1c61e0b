/** The command processor: it resolves every handler registered for a
    command's type, calls each in registration order with the same command,
    and collects their verdicts into a fresh aggregate. */
module CommandProcessing {
  import opened Commands

  /** The handler registry, populated at start-up and only read afterwards:
      for each command type, its handlers in registration order. */
  type Registry<!C> = map<CommandType, seq<Handler<C>>>

  /** What Process does with one command. */
  datatype ProcessOutcome =
    | Completed(results: seq<CommandResult>)   // every handler returned; their verdicts, in order
    | HandlerThrew(error: Error)                // a handler threw; the exception propagates
    | HandlerNotFound(commandType: CommandType) // the configuration error: no handler registered

  /** The handler lookup: None stands for a lookup that yields null. */
  function Resolve<C>(registry: Registry<C>, commandType: CommandType): (found: Option<seq<Handler<C>>>)
    ensures found.Some? <==> commandType in registry
    ensures found.Some? ==> found.value == registry[commandType]
  {
    if commandType in registry then Some(registry[commandType]) else None
  }

  /** Adds verdicts collected earlier in front of the rest of a dispatch. */
  function Prepend(collected: seq<CommandResult>, rest: ProcessOutcome): (r: ProcessOutcome)
  {
    match rest
    case Completed(results) => Completed(collected + results)
    case _ => rest
  }

  /** Reference meaning of the dispatch loop: call the handlers from the first
      on; a throw ends the dispatch with that exception, otherwise each verdict
      is kept in front of the verdicts of the handlers after it. */
  function Dispatch<C>(handlers: seq<Handler<C>>, command: C): (r: ProcessOutcome)
    ensures !r.HandlerNotFound?
    ensures r.Completed? ==> |r.results| == |handlers|
  {
    if handlers == [] then Completed([])
    else match handlers[0](command)
      case Threw(e) => HandlerThrew(e)
      case Returned(result) => Prepend([result], Dispatch(handlers[1..], command))
  }

  /** How many handlers the dispatch loop calls: all of them up to and
      including the first one that throws. */
  function InvokedCount<C>(handlers: seq<Handler<C>>, command: C): (n: nat)
    ensures n <= |handlers|
    ensures n == 0 <==> handlers == []
    ensures forall k :: 0 <= k < n - 1 ==> handlers[k](command).Returned?
    ensures n < |handlers| ==> handlers[n - 1](command).Threw?
  {
    if handlers == [] then 0
    else if handlers[0](command).Threw? then 1
    else 1 + InvokedCount(handlers[1..], command)
  }

  /** Process: look the handlers up, fail fast when there are none, otherwise
      call each with the same command and collect every verdict. `invoked`
      counts the handler calls made; they are the first `invoked` handlers,
      in registration order. */
  method Process<C>(registry: Registry<C>, commandType: CommandType, command: C)
    returns (outcome: ProcessOutcome, invoked: nat)
    ensures outcome.HandlerNotFound? <==>
              Resolve(registry, commandType).None? || Resolve(registry, commandType).value == []
    ensures outcome.HandlerNotFound? ==> outcome.commandType == commandType && invoked == 0
    ensures !outcome.HandlerNotFound? ==>
              outcome == Dispatch(registry[commandType], command) &&
              invoked == InvokedCount(registry[commandType], command)
  {
    var results: seq<CommandResult> := [];
    var found := Resolve(registry, commandType);
    if found.None? || found.value == [] {
      return HandlerNotFound(commandType), 0;
    }
    var handlers := found.value;
    invoked := 0;
    var i := 0;
    while i < |handlers|
      invariant 0 <= i <= |handlers|
      invariant Dispatch(handlers, command) == Prepend(results, Dispatch(handlers[i..], command))
      invariant InvokedCount(handlers, command) == i + InvokedCount(handlers[i..], command)
      invariant invoked == i
    {
      assert handlers[i..][0] == handlers[i] && handlers[i..][1..] == handlers[i + 1..];
      var handled := handlers[i](command);
      invoked := invoked + 1;
      match handled
      case Threw(e) =>
        return HandlerThrew(e), invoked;
      case Returned(result) =>
        PrependAssociative(results, [result], Dispatch(handlers[i + 1..], command));
        results := results + [result];
      i := i + 1;
    }
    assert handlers[i..] == [];
    assert results + [] == results;
    outcome := Completed(results);
  }

  lemma PrependAssociative(a: seq<CommandResult>, b: seq<CommandResult>, rest: ProcessOutcome)
    ensures Prepend(a, Prepend(b, rest)) == Prepend(a + b, rest)
  {
  }

  /** The dispatch completes exactly when no handler throws, and then the
      aggregate holds one verdict per handler: the i-th verdict is the i-th
      handler's, success or failure alike. */
  lemma {:induction false} DispatchCompleted<C>(handlers: seq<Handler<C>>, command: C)
    ensures Dispatch(handlers, command).Completed? <==>
              forall k :: 0 <= k < |handlers| ==> handlers[k](command).Returned?
    ensures Dispatch(handlers, command).Completed? ==>
              |Dispatch(handlers, command).results| == |handlers| &&
              forall k :: 0 <= k < |handlers| ==>
                Dispatch(handlers, command).results[k] == handlers[k](command).value
  {
    if handlers != [] {
      var tail := handlers[1..];
      DispatchCompleted(tail, command);
      assert forall k :: 1 <= k < |handlers| ==> handlers[k] == tail[k - 1];
      match handlers[0](command)
      case Threw(e) =>
      case Returned(result) =>
        if Dispatch(tail, command).Completed? {
          var rs := Dispatch(tail, command).results;
          assert Dispatch(handlers, command).results == [result] + rs;
        }
        if forall k :: 0 <= k < |handlers| ==> handlers[k](command).Returned? {
          assert forall k :: 0 <= k < |tail| ==> tail[k](command).Returned? by {
            forall k | 0 <= k < |tail| ensures tail[k](command).Returned? {
              assert tail[k] == handlers[k + 1];
            }
          }
        }
    }
  }

  /** A throw aborts the dispatch: the exception is the one thrown by the
      first handler that throws, that handler is the last one called, and no
      verdict is returned. */
  lemma {:induction false} DispatchAborts<C>(handlers: seq<Handler<C>>, command: C, j: nat)
    requires j < |handlers| && handlers[j](command).Threw?
    requires forall k :: 0 <= k < j ==> handlers[k](command).Returned?
    ensures Dispatch(handlers, command) == HandlerThrew(handlers[j](command).error)
    ensures InvokedCount(handlers, command) == j + 1
  {
    if j > 0 {
      var tail := handlers[1..];
      assert forall k :: 0 <= k < j - 1 ==> tail[k] == handlers[k + 1];
      DispatchAborts(tail, command, j - 1);
      assert tail[j - 1] == handlers[j];
    }
  }

  /** When no handler throws, every handler is called. */
  lemma AllInvokedWithoutThrow<C>(handlers: seq<Handler<C>>, command: C)
    requires forall k :: 0 <= k < |handlers| ==> handlers[k](command).Returned?
    ensures InvokedCount(handlers, command) == |handlers|
  {
  }

  /** The aggregate of a completed dispatch succeeds exactly when every
      handler's own verdict is a success. */
  lemma AggregateSucceeds<C>(handlers: seq<Handler<C>>, command: C)
    requires Dispatch(handlers, command).Completed?
    ensures Succeeded(Dispatch(handlers, command).results) <==>
              forall k :: 0 <= k < |handlers| ==>
                handlers[k](command).Returned? && handlers[k](command).value.success
  {
    DispatchCompleted(handlers, command);
  }

  /** Handlers that catch their own exceptions (as the handlers are meant to)
      never abort a dispatch: every one of them is called and contributes
      exactly one verdict. */
  lemma CatchingHandlersNeverAbort<C>(registry: Registry<C>, commandType: CommandType, command: C)
    requires commandType in registry && registry[commandType] != []
    requires forall k :: 0 <= k < |registry[commandType]| ==> registry[commandType][k](command).Returned?
    ensures Dispatch(registry[commandType], command).Completed?
    ensures |Dispatch(registry[commandType], command).results| == |registry[commandType]|
    ensures InvokedCount(registry[commandType], command) == |registry[commandType]|
  {
    var handlers := registry[commandType];
    DispatchCompleted(handlers, command);
    AllInvokedWithoutThrow(handlers, command);
  }
}
