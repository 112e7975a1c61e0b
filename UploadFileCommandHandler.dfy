/** The upload handler: it stores a posted file's bytes in the file store,
    then saves an upload record pointing at where they went, and turns any
    exception on the way into a failure verdict. */
module CommandHandlers {
  import opened Commands
  import opened CommandProcessing

  newtype byte = x: int | 0 <= x < 256

  /** A GUID, kept as its text. */
  type Guid = string

  /** An opaque reference, returned by the file store, to where bytes were put. */
  type Locator = string

  /** The posted file: its client-side name and its bytes. */
  datatype FileData = FileData(fileName: string, contents: seq<byte>)

  /** The upload command: the upload key that groups files, the posted file
      (None when nothing was posted, a null reference) and the user's name. */
  datatype UploadFileCommand = UploadFileCommand(groupId: Guid, fileData: Option<FileData>, username: string)

  /** The fixed prefix of every failure message of this handler. */
  const FailurePrefix: string := "A problem was encountered uploading the file: "

  /** The message of the exception raised when the command carries no file. */
  const NullReferenceMessage: string := "Object reference not set to an instance of an object."

  /** One file the store holds: the key it was saved under, its data and its locator. */
  datatype StoredFile = StoredFile(key: string, data: FileData, locator: Locator)

  /** The file store. Its disk is not modelled: `fault` is the condition of the
      device (None when healthy, else the exception any write throws) and a
      successful write returns a locator the store chooses. */
  class FileStore {
    var files: seq<StoredFile>
    var fault: Option<Error>

    constructor (fault: Option<Error>)
      ensures files == [] && this.fault == fault
    {
      files := [];
      this.fault := fault;
    }

    /** Writes the data under the key and returns its locator, or throws. */
    method SaveUploadedFile(key: string, data: FileData) returns (r: Outcome<Locator>)
      modifies this
      ensures fault == old(fault)
      ensures old(fault).Some? ==> r == Threw(old(fault).value) && files == old(files)
      ensures old(fault).None? ==> r.Returned? && files == old(files) + [StoredFile(key, data, r.value)]
    {
      if fault.Some? {
        return Threw(fault.value);
      }
      var locator: Locator := *;
      files := files + [StoredFile(key, data, locator)];
      r := Returned(locator);
    }
  }

  /** The upload entity. How it derives the key it is stored under
      (UploadedFilename) from its fields is not modelled: the constructor picks
      some key. */
  class Upload {
    const fileName: string
    const groupId: Guid
    const username: string
    const uploadedFilename: string
    var uploadedPath: Option<Locator>

    constructor (fileName: string, groupId: Guid, username: string)
      ensures this.fileName == fileName && this.groupId == groupId && this.username == username
      ensures uploadedPath == None
    {
      this.fileName := fileName;
      this.groupId := groupId;
      this.username := username;
      var key: string := *;
      uploadedFilename := key;
      uploadedPath := None;
    }
  }

  /** The repository of upload records: the records saved so far, in order.
      `fault` is the condition of the database behind it (None when healthy,
      else the exception any save throws). */
  class UploadRepository {
    var records: seq<Upload>
    var fault: Option<Error>

    constructor (fault: Option<Error>)
      ensures records == [] && this.fault == fault
    {
      records := [];
      this.fault := fault;
    }

    /** Saves the record and returns it, or throws. */
    method SaveOrUpdate(upload: Upload) returns (r: Outcome<Upload>)
      modifies this
      ensures fault == old(fault)
      ensures old(fault).Some? ==> r == Threw(old(fault).value) && records == old(records)
      ensures old(fault).None? ==> r == Returned(upload) && records == old(records) + [upload]
    {
      if fault.Some? {
        return Threw(fault.value);
      }
      records := records + [upload];
      r := Returned(upload);
    }
  }

  /** The exception that leaves the handler's try block, if any: reading the
      missing file's name, then the store write, then the repository save,
      in that order; the first one that throws ends the block. */
  function Raised(command: UploadFileCommand, storeFault: Option<Error>, repositoryFault: Option<Error>)
    : (e: Option<Error>)
    ensures e.None? <==> command.fileData.Some? && storeFault.None? && repositoryFault.None?
  {
    if command.fileData.None? then Some(Error(NullReferenceMessage))
    else if storeFault.Some? then storeFault
    else repositoryFault
  }

  /** The catch block's verdict for an exception. */
  function Caught(e: Error): (r: CommandResult)
    ensures !r.success && r.message.Some?
    ensures |r.message.value| == |FailurePrefix| + |e.message|
    ensures r.message.value[..|FailurePrefix|] == FailurePrefix
    ensures r.message.value[|FailurePrefix|..] == e.message
  {
    CommandResult(false, Some(FailurePrefix + e.message))
  }

  /** The verdict Handle returns, given the store's and the repository's condition. */
  function HandleResult(command: UploadFileCommand, storeFault: Option<Error>, repositoryFault: Option<Error>)
    : (r: CommandResult)
    ensures r.success <==> command.fileData.Some? && storeFault.None? && repositoryFault.None?
    ensures r.success ==> r.message == None
    ensures !r.success ==> r.message.Some? && |FailurePrefix| <= |r.message.value| &&
                           r.message.value[..|FailurePrefix|] == FailurePrefix
  {
    match Raised(command, storeFault, repositoryFault)
    case None => CommandResult(true, None)
    case Some(e) => Caught(e)
  }

  /** A failure verdict names its first cause after the fixed prefix: a
      missing file before anything is touched, a store failure even when the
      repository is also faulty (the save is then never attempted), and a
      repository failure only after a successful write. */
  lemma FailureNamesFirstCause(command: UploadFileCommand, storeFault: Option<Error>, repositoryFault: Option<Error>)
    ensures command.fileData.None? ==>
              HandleResult(command, storeFault, repositoryFault).message ==
              Some(FailurePrefix + NullReferenceMessage)
    ensures command.fileData.Some? && storeFault.Some? ==>
              HandleResult(command, storeFault, repositoryFault).message ==
              Some(FailurePrefix + storeFault.value.message)
    ensures command.fileData.Some? && storeFault.None? && repositoryFault.Some? ==>
              HandleResult(command, storeFault, repositoryFault).message ==
              Some(FailurePrefix + repositoryFault.value.message)
  {
  }

  /** The name under which the upload handler is registered. */
  const UploadFileCommandType: CommandType := "UploadFileCommand"

  /** The upload handler as the processor sees it, for given collaborator
      conditions: it always returns its verdict and never throws. */
  function AsHandler(storeFault: Option<Error>, repositoryFault: Option<Error>): Handler<UploadFileCommand>
  {
    command => Returned(HandleResult(command, storeFault, repositoryFault))
  }

  /** With the upload handler registered for upload commands, dispatching an
      upload command always completes: the handler is called once and its
      verdict, failure or success, is the aggregate's only result. */
  lemma UploadDispatchCompletes(registry: Registry<UploadFileCommand>, command: UploadFileCommand,
                                storeFault: Option<Error>, repositoryFault: Option<Error>)
    requires UploadFileCommandType in registry
    requires registry[UploadFileCommandType] == [AsHandler(storeFault, repositoryFault)]
    ensures Dispatch(registry[UploadFileCommandType], command) ==
              Completed([HandleResult(command, storeFault, repositoryFault)])
    ensures InvokedCount(registry[UploadFileCommandType], command) == 1
  {
    CatchingHandlersNeverAbort(registry, UploadFileCommandType, command);
    DispatchCompleted(registry[UploadFileCommandType], command);
  }

  class UploadFileCommandHandler {
    const fileStore: FileStore
    const uploadRepository: UploadRepository

    constructor (fileStore: FileStore, uploadRepository: UploadRepository)
      ensures this.fileStore == fileStore && this.uploadRepository == uploadRepository
    {
      this.fileStore := fileStore;
      this.uploadRepository := uploadRepository;
    }

    /** Handles an upload command: stores the bytes, then saves a record that
        points at them; never throws and returns exactly one verdict. The
        store is written only when the command carries a file and the store
        is healthy; a record is saved only on success, and it then points at
        the locator of the file just written. A store write followed by a
        failed save is not undone. */
    method Handle(command: UploadFileCommand) returns (result: CommandResult)
      modifies fileStore, uploadRepository
      ensures result == HandleResult(command, old(fileStore.fault), old(uploadRepository.fault))
      ensures fileStore.fault == old(fileStore.fault) && uploadRepository.fault == old(uploadRepository.fault)
      ensures command.fileData.Some? && old(fileStore.fault).None? ==>
                |fileStore.files| == |old(fileStore.files)| + 1 &&
                fileStore.files[..|old(fileStore.files)|] == old(fileStore.files) &&
                fileStore.files[|old(fileStore.files)|].data == command.fileData.value
      ensures command.fileData.None? || old(fileStore.fault).Some? ==> fileStore.files == old(fileStore.files)
      ensures !result.success ==> uploadRepository.records == old(uploadRepository.records)
      ensures result.success ==>
                |uploadRepository.records| == |old(uploadRepository.records)| + 1 &&
                uploadRepository.records[..|old(uploadRepository.records)|] == old(uploadRepository.records) &&
                var upload := uploadRepository.records[|old(uploadRepository.records)|];
                var written := fileStore.files[|old(fileStore.files)|];
                fresh(upload) &&
                upload.fileName == command.fileData.value.fileName &&
                upload.groupId == command.groupId &&
                upload.username == command.username &&
                written.key == upload.uploadedFilename &&
                upload.uploadedPath == Some(written.locator)
    {
      if command.fileData.None? {
        return Caught(Error(NullReferenceMessage));
      }
      var fileData := command.fileData.value;
      var upload := new Upload(fileData.fileName, command.groupId, command.username);
      var stored := fileStore.SaveUploadedFile(upload.uploadedFilename, fileData);
      if stored.Threw? {
        return Caught(stored.error);
      }
      upload.uploadedPath := Some(stored.value);
      var saved := uploadRepository.SaveOrUpdate(upload);
      if saved.Threw? {
        return Caught(saved.error);
      }
      result := CommandResult(true, None);
    }
  }
}
