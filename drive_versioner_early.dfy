/**
 * The first revision of `Partridge\Utils\Google\DriveVersioner`: `version`
 * only gets or creates the namespace folder under the root and returns it.
 * It has no cache, no console output and no exception filtering, so Google
 * exceptions from a search leave `version` as they are.
 */
module EarlyDriveVersioner {
  import opened Php
  import opened DriveStore
  import DriveVersioner

  /** The message constants of this revision's `DriveVersionerException`. */
  const DRIVE_CANNOT_CREATE_DIR := "Unable to create namespace directory. "
  const VERSIONABLE_FILE_NOT_READABLE := "The file to version is not readable. "
  const DUPLICATE_NAMESPACE_DIRECTORY := "Found multiple directories for the namespace. This is bad. "

  /**
   * How `version` fails: a `DriveVersionerException` with its message, a
   * `RuntimeException` (message, code, previous exception), a Google
   * exception left as it is, or a PHP `TypeError`.
   */
  datatype Failure =
    | VersionerException(message: string)
    | RuntimeException(message: string, code: int, previous: Option<GoogleException>)
    | Rethrown(exception: GoogleException)
    | TypeError

  datatype Result<T> = Ok(value: T) | Err(error: Failure)

  /** The search for a namespace folder; this revision does not exclude trashed files. */
  function EarlySearch(rootId: FileId, ns: string): (q: Query)
    ensures q.parent == rootId && q.name == ns && q.mimeType == Some(MIME_DIR) && !q.excludeTrashed
  {
    Query(rootId, ns, Some(MIME_DIR), false)
  }

  /** Every folder the current revision's search finds, this one finds too. */
  lemma EarlySearchFindsMore(d: Drive, rootId: FileId, ns: string)
    ensures Matching(d, DriveVersioner.DirectorySearch(rootId, ns)) <= Matching(d, EarlySearch(rootId, ns))
  {
  }

  /** A value passed as the `$code` argument of a PHP exception constructor. */
  datatype CodeArg = IntCode(code: int) | ObjectCode(object: GoogleException)

  /**
   * `new \RuntimeException($message, $code, $previous)`: the constructor
   * takes an `int` code, so an object in that place is a `TypeError`.
   */
  function NewRuntimeException(message: string, code: CodeArg, previous: Option<GoogleException>): (f: Failure)
    ensures code.IntCode? ==> f == RuntimeException(message, code.code, previous)
    ensures code.ObjectCode? ==> f == TypeError
  {
    match code
    case IntCode(c) => RuntimeException(message, c, previous)
    case ObjectCode(_) => TypeError
  }

  /** The failure `createDirectory` raises as written: the Google exception goes in the code's place. */
  function CreateFailureAsWritten(e: GoogleException): Failure {
    NewRuntimeException(DRIVE_CANNOT_CREATE_DIR + e.message, ObjectCode(e), None)
  }

  /** The failure evidently intended: the message prefixed, the Google exception as the previous one. */
  function CreateFailure(e: GoogleException): (f: Failure)
    ensures f.RuntimeException? && f.previous == Some(e) && f.code == 0
    ensures |f.message| == |DRIVE_CANNOT_CREATE_DIR| + |e.message|
            && f.message[..|DRIVE_CANNOT_CREATE_DIR|] == DRIVE_CANNOT_CREATE_DIR
            && f.message[|DRIVE_CANNOT_CREATE_DIR|..] == e.message
  {
    NewRuntimeException(DRIVE_CANNOT_CREATE_DIR + e.message, IntCode(0), Some(e))
  }

  /**
   * As written, every failed folder create ends in a `TypeError`, so the
   * message and the Google exception are both lost; the intended failure
   * keeps them, and tells two different Drive messages apart.
   */
  lemma CreateFailureAsWrittenIsTypeError(e: GoogleException, e': GoogleException)
    ensures CreateFailureAsWritten(e) == TypeError && CreateFailureAsWritten(e') == TypeError
    ensures e.message != e'.message ==> CreateFailure(e) != CreateFailure(e')
  {
    if e.message != e'.message {
      assert CreateFailure(e).message[|DRIVE_CANNOT_CREATE_DIR|..] != CreateFailure(e').message[|DRIVE_CANNOT_CREATE_DIR|..];
    }
  }

  class EarlyVersioner {
    const store: Store
    const rootId: FileId
    const isReadable: string -> bool

    constructor(store: Store, rootId: FileId, isReadable: string -> bool)
      ensures this.store == store && this.rootId == rootId && this.isReadable == isReadable
    {
      this.store := store;
      this.rootId := rootId;
      this.isReadable := isReadable;
    }

    /**
     * `version`: the namespace folder under the root, created when no
     * search result comes back. An unreadable file fails before any call.
     */
    method Version(fileLoc: string, ns: string) returns (r: Result<DriveFile>)
      modifies store`calls, store`drive
      ensures !isReadable(fileLoc) ==>
                r == Err(VersionerException(VERSIONABLE_FILE_NOT_READABLE))
                && store.calls == old(store.calls) && store.drive == old(store.drive)
      ensures isReadable(fileLoc) ==>
                |store.calls| > |old(store.calls)| && store.calls[|old(store.calls)|] == ListFilesCall(EarlySearch(rootId, ns))
      ensures isReadable(fileLoc) && ListFilesOp in store.faults ==>
                r == Err(Rethrown(store.faults[ListFilesOp]))
                && store.calls == old(store.calls) + [ListFilesCall(EarlySearch(rootId, ns))] && store.drive == old(store.drive)
      ensures isReadable(fileLoc) && ListFilesOp !in store.faults && |old(Matching(store.drive, EarlySearch(rootId, ns)))| > 1 ==>
                r == Err(VersionerException(DUPLICATE_NAMESPACE_DIRECTORY + "Namespace: " + ns))
                && store.calls == old(store.calls) + [ListFilesCall(EarlySearch(rootId, ns))] && store.drive == old(store.drive)
      ensures isReadable(fileLoc) && ListFilesOp !in store.faults && |old(Matching(store.drive, EarlySearch(rootId, ns)))| == 1 ==>
                r.Ok? && old(Matching(store.drive, EarlySearch(rootId, ns))) == {r.value}
                && store.calls == old(store.calls) + [ListFilesCall(EarlySearch(rootId, ns))] && store.drive == old(store.drive)
      ensures isReadable(fileLoc) && ListFilesOp !in store.faults && old(Matching(store.drive, EarlySearch(rootId, ns))) == {} ==>
                var body := DriveVersioner.DirBody(rootId, ns);
                store.calls == old(store.calls) + [ListFilesCall(EarlySearch(rootId, ns)), CreateCall(body, None)]
                && (old(CreateProblem(store.drive, store.faults, body)).None? ==>
                      r == Ok(DriveFile(old(store.drive).nextId, NewMeta(body))) && store.drive == Created(old(store.drive), body))
                && (old(CreateProblem(store.drive, store.faults, body)).Some? ==>
                      r == Err(CreateFailure(old(CreateProblem(store.drive, store.faults, body)).value)) && store.drive == old(store.drive))
    {
      if !isReadable(fileLoc) {
        return Err(VersionerException(VERSIONABLE_FILE_NOT_READABLE));
      }
      var found := QueryForDirectory(ns);
      if found.Err? {
        return Err(found.error);
      }
      if found.value.Some? {
        return Ok(found.value.value);
      }
      assert store.calls == old(store.calls) + [ListFilesCall(EarlySearch(rootId, ns))];
      r := CreateDirectory(ns);
    }

    /**
     * `queryForDirectory`: one search; a Google exception leaves it as it
     * is, more than one folder is a failure naming the namespace, and
     * otherwise the folder found, if any.
     */
    method QueryForDirectory(ns: string) returns (r: Result<Option<DriveFile>>)
      modifies store`calls
      ensures store.calls == old(store.calls) + [ListFilesCall(EarlySearch(rootId, ns))]
      ensures ListFilesOp in store.faults ==> r == Err(Rethrown(store.faults[ListFilesOp]))
      ensures ListFilesOp !in store.faults ==>
                var found := Matching(store.drive, EarlySearch(rootId, ns));
                (|found| > 1 ==> r == Err(VersionerException(DUPLICATE_NAMESPACE_DIRECTORY + "Namespace: " + ns)))
                && (found == {} ==> r == Ok(None))
                && (|found| == 1 ==> r.Ok? && r.value.Some? && found == {r.value.value})
    {
      var o := store.ListFiles(EarlySearch(rootId, ns));
      match o
      case Thrown(e) =>
        return Err(Rethrown(e));
      case Done(files) =>
        if |files| > 1 {
          return Err(VersionerException(DUPLICATE_NAMESPACE_DIRECTORY + "Namespace: " + ns));
        }
        if files == {} {
          return Ok(None);
        }
        var f :| f in files;
        DriveVersioner.OnlyMember(files, f);
        return Ok(Some(f));
    }

    /**
     * `createDirectory`: a folder named after the namespace whose parent is
     * the root. A failed create is reported as a `RuntimeException` carrying
     * the Drive message (the corrected behaviour; see
     * `CreateFailureAsWrittenIsTypeError`).
     */
    method CreateDirectory(ns: string) returns (r: Result<DriveFile>)
      modifies store`calls, store`drive
      ensures var body := DriveVersioner.DirBody(rootId, ns);
              store.calls == old(store.calls) + [CreateCall(body, None)]
              && (old(CreateProblem(store.drive, store.faults, body)).None? ==>
                    r == Ok(DriveFile(old(store.drive).nextId, NewMeta(body))) && store.drive == Created(old(store.drive), body))
              && (old(CreateProblem(store.drive, store.faults, body)).Some? ==>
                    r == Err(CreateFailure(old(CreateProblem(store.drive, store.faults, body)).value)) && store.drive == old(store.drive))
    {
      var body := DriveVersioner.DirBody(rootId, ns);
      var o := store.Create(body, None);
      match o
      case Done(f) =>
        return Ok(f);
      case Thrown(e) =>
        return Err(CreateFailure(e));
    }
  }

  /**
   * Getting or creating is stable: after a `version` that created the
   * folder, the next search for the namespace finds exactly that folder, so
   * a second `version` makes no create.
   */
  lemma SecondVersionFindsFolder(d: Drive, rootId: FileId, ns: string)
    requires WellFormed(d) && Matching(d, EarlySearch(rootId, ns)) == {}
    ensures var body := DriveVersioner.DirBody(rootId, ns);
            Matching(Created(d, body), EarlySearch(rootId, ns)) == {DriveFile(d.nextId, NewMeta(body))}
  {
    CreatedIsOnlyMatch(d, DriveVersioner.DirBody(rootId, ns), EarlySearch(rootId, ns));
  }
}
