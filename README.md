# Command dispatch core of SharpArchitecture-MultiTenant, in Dafny

This project models the command-dispatch core of the SharpArchitecture-MultiTenant
web application and proves properties of the model.

- `CommandProcessor.Process` takes a command. It looks up every handler registered
  for the command's type and throws `CommandHandlerNotFoundException` when the lookup
  yields null or nothing. Otherwise it calls each handler in order with the same
  command and adds each verdict to a fresh `CommandResults` aggregate. It has no
  try/catch, so a handler that throws aborts the loop.
- `UploadFileCommandHandler.Handle` builds an `Upload` record from the command.
  It writes the posted file to the file store, sets the record's `UploadedPath` to
  the locator the store returns, and saves the record in the repository. Any
  exception becomes a failure verdict whose message is
  `"A problem was encountered uploading the file: "` followed by the exception's message.

Files:

- `Commands.dfy` (module `Commands`): the shared values. These are the thrown
  exception (`Error`), "returns or throws" (`Outcome`), one handler's verdict
  (`CommandResult`), a handler as the processor sees it (`Handler`, a function from
  command to outcome) and the aggregate's overall verdict (`Succeeded`).
- `CommandProcessor.dfy` (module `CommandProcessing`): the registry, `Process` as a
  method with a loop, the reference function `Dispatch` that the loop is proved
  against, and the lemmas about it.
- `UploadFileCommandHandler.dfy` (module `CommandHandlers`): the file store, the
  upload entity and the repository as classes, and the handler as a class whose
  `Handle` method changes the store and the repository.

Modelling choices:

- The global service locator becomes an explicit registry argument: a map from a
  command type's name to its handlers, in registration order. A lookup that yields
  null is a missing key.
- The command's type (`typeof(TCommand)`) is passed to `Process` as a name beside
  the command.
- `Process` also returns how many handlers it called. That count is what makes "no
  handler after a throwing one is called" statable. That every handler gets the same
  command, in registration order, comes from `Process` being tied to `Dispatch` and
  from `DispatchCompleted`.
- The aggregate is the sequence of verdicts. The body of `CommandResults` is not part
  of this model. Its `Success` flag, read at
  `app/SharpArchitecture-MultiTenant.Web/Controllers/Customers/CustomersController.cs`
  lines 160 and 173, is defined here as the conjunction of the verdicts. That
  definition is a choice of this model; the C# code does not show it.
- The file store and the repository each have a `fault` field. It stands for the
  condition of the device behind them: `None` when healthy, otherwise the exception
  every call throws. A failed store write leaves the store unchanged.
- The locator returned by the store and the `Upload` entity's `UploadedFilename` are
  chosen nondeterministically. Their derivations are not part of this model.
- A command without a posted file (a null `FileData`) makes `command.FileData.FileName`
  throw a null-reference exception. The handler catches it before the store or the
  repository is touched.

## Model

| member | source | states |
|---|---|---|
| `CommandProcessing.Process` | app/SharpArchitecture-MultiTenant.Framework/Commands/CommandProcessor.cs:10-24 | Fails with handler-not-found for exactly that command type, calling no handler, iff the lookup yields null (a missing key) or no handlers. Otherwise its outcome is `Dispatch` of the registered handlers applied to the very command given to `Process`, and it calls exactly `InvokedCount` handlers. No results from earlier calls appear, because the outcome depends only on the registry and the command. |
| `CommandProcessing.Resolve` | app/SharpArchitecture-MultiTenant.Framework/Commands/CommandProcessor.cs:14 | Only defines the lookup that replaces the service locator. It yields the handlers registered for the type, in registration order, and None (standing for null) iff the type has no entry. |
| `CommandProcessing.Dispatch` | app/SharpArchitecture-MultiTenant.Framework/Commands/CommandProcessor.cs:19-21 | The reference meaning of the dispatch loop. It never yields handler-not-found, and a completed dispatch holds exactly one verdict per handler. |
| `CommandProcessing.InvokedCount` | app/SharpArchitecture-MultiTenant.Framework/Commands/CommandProcessor.cs:19-21 | The number of handlers the loop calls. It is at most the number of handlers and zero only when there are none. Every handler called before the last one returned, and when fewer than all are called the last one called threw. |
| `CommandProcessing.DispatchCompleted` | app/SharpArchitecture-MultiTenant.Framework/Commands/CommandProcessor.cs:19-21 | The dispatch completes iff no handler throws. The aggregate then has exactly n results, and the k-th is the verdict returned by the k-th handler, success or failure (no filtering). |
| `CommandProcessing.DispatchAborts` | app/SharpArchitecture-MultiTenant.Framework/Commands/CommandProcessor.cs:19-21 | When handler j is the first to throw, the exception propagates out of the dispatch unchanged, no aggregate is returned, and exactly j + 1 handlers are called, so later handlers are not. |
| `CommandProcessing.AllInvokedWithoutThrow` | app/SharpArchitecture-MultiTenant.Framework/Commands/CommandProcessor.cs:19-21 | When no handler throws, every registered handler is called. |
| `Commands.Succeeded` | app/SharpArchitecture-MultiTenant.Web/Controllers/Customers/CustomersController.cs:173 | The aggregate's `Success` flag, defined by this model as a choice because the C# code does not show it: true iff every contained verdict is a success, and vacuously true for no verdicts. |
| `CommandProcessing.AggregateSucceeds` | app/SharpArchitecture-MultiTenant.Web/Controllers/Customers/CustomersController.cs:160 | A completed aggregate's `Success` (the conjunction chosen above) holds iff every handler returned a success verdict. |
| `CommandProcessing.CatchingHandlersNeverAbort` | app/SharpArchitecture-MultiTenant.Framework/Commands/CommandProcessor.cs:14-21 | When handlers are registered and each catches its own exceptions, as the upload handler does, the dispatch completes, every handler is called and each contributes exactly one verdict. |
| `CommandHandlers.FileStore.SaveUploadedFile` | app/SharpArchitecture-MultiTenant.ApplicationServices/CommandHandlers/UploadFileCommandHandler.cs:24 | A faulty store throws its exception and keeps its files. A healthy store appends the file under the given key with the given data and returns that file's locator. |
| `CommandHandlers.UploadRepository.SaveOrUpdate` | app/SharpArchitecture-MultiTenant.ApplicationServices/CommandHandlers/UploadFileCommandHandler.cs:25 | A faulty repository throws its exception and keeps its records. A healthy one appends the record. |
| `CommandHandlers.Upload.constructor` | app/SharpArchitecture-MultiTenant.ApplicationServices/CommandHandlers/UploadFileCommandHandler.cs:23 | The record takes the file name, group id and username it is given and has no uploaded path yet. |
| `CommandHandlers.Raised` | app/SharpArchitecture-MultiTenant.ApplicationServices/CommandHandlers/UploadFileCommandHandler.cs:22-26 | An exception leaves the try block unless the command carries a file and both collaborators are healthy. |
| `CommandHandlers.Caught` | app/SharpArchitecture-MultiTenant.ApplicationServices/CommandHandlers/UploadFileCommandHandler.cs:29-30 | The catch block's verdict is a failure whose message is the fixed prefix followed by exactly the exception's message. |
| `CommandHandlers.HandleResult` | app/SharpArchitecture-MultiTenant.ApplicationServices/CommandHandlers/UploadFileCommandHandler.cs:22-31 | The verdict is a success with no message iff the command carries a file and both collaborators are healthy. Otherwise it is a failure whose message starts with the fixed prefix. |
| `CommandHandlers.FailureNamesFirstCause` | app/SharpArchitecture-MultiTenant.ApplicationServices/CommandHandlers/UploadFileCommandHandler.cs:23-30 | A failure message is the fixed prefix plus exactly the message of the first failing step. That step is the missing file's null reference, else the store's exception (even when the repository is also faulty, since the save is never attempted), else the repository's exception. |
| `CommandHandlers.UploadDispatchCompletes` | app/SharpArchitecture-MultiTenant.ApplicationServices/CommandHandlers/UploadFileCommandHandler.cs:22-31 | When the upload handler, which catches every exception, is registered for upload commands, dispatching an upload command always completes. The handler is called once and its verdict, success or failure, is the aggregate's only result. |
| `CommandHandlers.UploadFileCommandHandler.Handle` | app/SharpArchitecture-MultiTenant.ApplicationServices/CommandHandlers/UploadFileCommandHandler.cs:20-32 | Returns exactly one verdict, `HandleResult` of the command and the collaborators' prior condition, and never throws. The store gains one file holding the command's data iff the command has a file and the store is healthy. A record is persisted only on success, so a failed store write leaves no record. On success, exactly one fresh record is appended with the command's file name, group id and username. Its `UploadedPath` is exactly the locator of the file just written, and that file's key is the record's `UploadedFilename`. When the save fails after the write, the written file stays. |
| `CommandHandlers.UploadFileCommandHandler.constructor` | app/SharpArchitecture-MultiTenant.ApplicationServices/CommandHandlers/UploadFileCommandHandler.cs:14-18 | The handler keeps the file store and repository it is given. |

## Left out

- The service locator and its resolution order and lifetime rules are replaced by an explicit registry. Registration is not modelled; the registry is an input.
- Handler side effects are not threaded through `Process`. There a handler is a pure function from command to outcome. The upload handler's writes are modelled only in its own class.
- `CommandHandlerNotFoundException` and other .NET exception types are reduced to a variant of the outcome datatype and to an error carrying a message. Stack traces are not modelled.
- `CommandResults` and `AddResult` are not part of this model. The aggregate is the sequence of verdicts, and its `Success` is the conjunction chosen above.
- The `Upload` entity's filename derivation and the constructor's own checks are not part of this model, and neither is the `IFileStore` implementation's locator format. Both the key and the locator are chosen nondeterministically.
- Disk I/O, `HttpPostedFileBase` streams and the NHibernate repository are reduced to a `fault` condition per collaborator. A store write that fails partway is not modelled, and a failed write changes nothing.
- `CustomersController` (routing, views, redirects, `TempData`, anti-forgery, the `[Transaction]` filter) is not part of this model.
