/**
 * `Partridge\Utils\Google\DriveVersioner\DriveVersioner`: keeps every
 * version of a local file as a revision of one Drive file named
 * `versioned`, inside a folder named after the file's namespace, inside a
 * root folder fixed at construction.
 *
 * The versioner is a class over the Drive store, a per-instance cache of
 * query results keyed `"<operation>-<namespace>"`, and a console log. A PHP
 * exception leaving a public method is the `Err` of a `Result`; `die` and a
 * PHP `TypeError` are failures of their own.
 */
module DriveVersioner {
  import opened Php
  import opened DriveStore
  import ArrayUtil

  const VERSIONED_FILENAME := "versioned"
  const OCTET_STREAM := "application/octet-stream"
  const REDACTED := "--REDACTED--"
  const DATA := StrKey("data")

  datatype Mode = VersionMode | RevisionsMode

  /** The message constants the versioner prints and raises. */
  datatype Message =
    | AuthorisationFail
    | DriveCannotCreateDir
    | DriveCannotCreateVersionedFile
    | DriveCannotUpdateVersionedFile
    | DriveRootNotFound
    | ParentRootNotFound
    | VersionableFileNotReadable
    | DuplicateNamespaceDirectory
    | DuplicateVersionedFile
    | DriveCannotListVersionedFile
    | FieldNotWriteable
    | DebugNsDirCreated
    | DebugNsDirFound
    | DebugVersionedFileCreated
    | DebugVersionedFileFound
    | DebugVersionFileAlreadyExists
    | DebugUpdatingRevision
    | DebugListingVersionsForVersioned
    | DebugNewVersionCreated
    | DebugCacheHit

  /**
   * The text of a message constant; `FieldNotWriteable` has none here,
   * since the messages class of the versioner's own namespace is not part
   * of this model.
   */
  function Text(m: Message): Option<string> {
    match m
    case AuthorisationFail => Some("Authorisation incorrect. See docs for directions on setting up the client. ")
    case DriveCannotCreateDir => Some("Unable to create namespace directory. ")
    case DriveCannotCreateVersionedFile => Some("Unable to create versionable file. ")
    case DriveCannotUpdateVersionedFile => Some("Unable to update versionable file. ")
    case DriveRootNotFound => Some("Unable to locate the root directory. This is required for use. Use Google Drive web interface to find ID of writable directory (ideally empty). ")
    case ParentRootNotFound => Some("Unable to locate the parent directory. This is required for use. Use Google Drive web interface to find ID of writable directory (ideally empty). ")
    case VersionableFileNotReadable => Some("The file to version is not readable. ")
    case DuplicateNamespaceDirectory => Some("Found multiple directories for the namespace. This is bad. ")
    case DuplicateVersionedFile => Some("Found multiple files for the versioned file. This is bad. ")
    case DriveCannotListVersionedFile => Some("The versions cannot be listed. This may be due to missing versioned file, namespace directory or incorrect root. ")
    case FieldNotWriteable => None
    case DebugNsDirCreated => Some("Namespace directory has been created. ")
    case DebugNsDirFound => Some("Namespace directory already existent. ")
    case DebugVersionedFileCreated => Some("The versioned file has been created. ")
    case DebugVersionedFileFound => Some("The versioned file already existent. ")
    case DebugVersionFileAlreadyExists => Some("The version of that file has already been saved. ")
    case DebugUpdatingRevision => Some("Updating specific version. ")
    case DebugListingVersionsForVersioned => Some("Querying version list for file. ")
    case DebugNewVersionCreated => Some("New version of the versioned file has been created. ")
    case DebugCacheHit => Some("Cache hit. ")
  }

  /**
   * How a call fails: a `DriveVersionerException` (its message constant,
   * the text appended to it, its code and the exception it wraps), a Google
   * exception re-thrown as it is, the process ending in `die`, or a PHP
   * `TypeError` from a typed return with nothing to return.
   */
  datatype Failure =
    | VersionerException(message: Message, detail: string, code: int, previous: Option<GoogleException>)
    | Rethrown(exception: GoogleException)
    | Died
    | TypeError

  datatype Result<T> = Ok(value: T) | Err(error: Failure)

  /**
   * `filterCommonExceptions`: the failure it raises for a Google exception,
   * or None when it returns normally (a service exception with no errors).
   */
  function Classify(e: GoogleException): (r: Option<Failure>)
    ensures e.ClientException? ==> r == Some(Rethrown(e))
    ensures r.None? <==> e.ServiceException? && e.reasons == []
    ensures r.Some? && r.value.VersionerException? ==>
              r.value.code == e.code && r.value.previous == Some(e) && r.value.detail == ""
              && (r.value.message == AuthorisationFail || r.value.message == ParentRootNotFound || r.value.message == FieldNotWriteable)
    ensures e.ServiceException? && e.reasons != [] ==>
              (r == Some(Died) <==> e.reasons[0] != "insufficientFilePermissions" && e.reasons[0] != "parentNotAFolder"
                                    && e.reasons[0] != "fieldNotWritable")
  {
    match e
    case ClientException(_, _) => Some(Rethrown(e))
    case ServiceException(code, reasons, _) =>
      if reasons == [] then None
      else if reasons[0] == "insufficientFilePermissions" then Some(VersionerException(AuthorisationFail, "", code, Some(e)))
      else if reasons[0] == "parentNotAFolder" then Some(VersionerException(ParentRootNotFound, "", code, Some(e)))
      else if reasons[0] == "fieldNotWritable" then Some(VersionerException(FieldNotWriteable, "", code, Some(e)))
      else Some(Died)
  }

  /** What a write raises when `filterCommonExceptions` returns: the given message with the exception's own text. */
  function WriteFailure(e: GoogleException, m: Message): Failure {
    match Classify(e)
    case Some(f) => f
    case None => VersionerException(m, e.message, e.code, Some(e))
  }

  /** What `createDirectory` raises: a 404 means the root folder is missing. */
  function DirectoryFailure(e: GoogleException, rootId: FileId): Failure {
    if e.code == 404 then VersionerException(DriveRootNotFound, NatToString(rootId), e.code, Some(e))
    else WriteFailure(e, DriveCannotCreateDir)
  }

  /* ---------------------------------------------------------------- cache */

  datatype CacheOp = ForDirectory | ForVersioned | ForVersionList | ForList

  /** A cache key: the operation and the namespace it was asked for. */
  datatype CacheKey = CacheKey(op: CacheOp, ns: string)

  function OpName(op: CacheOp): string {
    match op
    case ForDirectory => "queryForDirectory"
    case ForVersioned => "queryForVersioned"
    case ForVersionList => "queryForVersionList"
    case ForList => "list"
  }

  /** The string key the source builds. */
  function KeyString(k: CacheKey): string {
    OpName(k.op) + "-" + k.ns
  }

  /** Distinct keys are distinct strings, so the map keyed by `CacheKey` is the source's cache. */
  lemma KeyStringInjective(a: CacheKey, b: CacheKey)
    ensures a != b ==> KeyString(a) != KeyString(b)
  {
    var sa, sb := KeyString(a), KeyString(b);
    if a.op != b.op {
      assert sa[0] != sb[0] || sa[8] != sb[8] || sa[15] != sb[15];
    } else if a.ns != b.ns {
      var n := |OpName(a.op)| + 1;
      assert sa[n..] == a.ns && sb[n..] == b.ns;
    }
  }

  /** A cached value; `NullEntry` is a stored null, or no entry at all. */
  datatype Cached = NullEntry | CachedFile(file: DriveFile) | CachedRevisions(revisions: seq<Revision>)

  function Lookup(cache: map<CacheKey, Cached>, key: CacheKey): Cached {
    if key in cache then cache[key] else NullEntry
  }

  predicate CachedFileAt(cache: map<CacheKey, Cached>, key: CacheKey) {
    key in cache && cache[key].CachedFile?
  }

  function AsCached(f: Option<DriveFile>): Cached {
    if f.Some? then CachedFile(f.value) else NullEntry
  }

  /* ------------------------------------------------------------- requests */

  /** The local filesystem and hashing, as the versioner sees them. */
  datatype Host = Host(
    isReadable: string -> bool,
    fileGetContents: string -> string,
    finfoFile: string -> Option<string>,
    md5: string -> string)

  /** `getMimeType`: the detected type when detection gives a non-empty string, `application/octet-stream` otherwise. */
  function MimeType(host: Host, fileLoc: string): (m: string)
    ensures m != ""
    ensures host.finfoFile(fileLoc).Some? && host.finfoFile(fileLoc).value != "" ==> m == host.finfoFile(fileLoc).value
    ensures host.finfoFile(fileLoc).None? || host.finfoFile(fileLoc).value == "" ==> m == OCTET_STREAM
  {
    var detected := host.finfoFile(fileLoc);
    if detected.Some? && |detected.value| > 0 then detected.value else OCTET_STREAM
  }

  /** The search for a namespace folder under the root. */
  function DirectorySearch(rootId: FileId, ns: string): Query {
    Query(rootId, ns, Some(MIME_DIR), true)
  }

  /** The search for the container inside a namespace folder. */
  function VersionedSearch(dirId: FileId): Query {
    Query(dirId, VERSIONED_FILENAME, None, true)
  }

  /** The body `createDirectory` sends. */
  function DirBody(rootId: FileId, ns: string): FileBody {
    FileBody(MIME_DIR, ns, Some([rootId]), None, map[], false, None)
  }

  /** The body `createVersioned` sends: a container inside the namespace folder, tagged with the discriminator. */
  function VersionedBody(host: Host, ns: string, discriminator: string, fileLoc: string, dirId: FileId): (b: FileBody)
    ensures b.name == VERSIONED_FILENAME && b.parents == Some([dirId]) && b.keepRevisionForever
    ensures b.originalFilename == Some(Basename(fileLoc)) && '/' !in b.originalFilename.value
    ensures b.properties == map["discriminator" := discriminator, "id" := host.md5(ns + discriminator)]
    ensures b.mimeType == MimeType(host, fileLoc) && b.mimeType != ""
  {
    FileBody(MimeType(host, fileLoc), VERSIONED_FILENAME, Some([dirId]), Some(Basename(fileLoc)),
             map["discriminator" := discriminator, "id" := host.md5(ns + discriminator)], true, Some("multipart"))
  }

  /** The body `createUpdate` sends: the create body without `parents`, which an update may not carry. */
  function UpdateBody(host: Host, ns: string, discriminator: string, fileLoc: string): (b: FileBody)
    ensures b.name == VERSIONED_FILENAME && b.parents.None? && b.keepRevisionForever
    ensures b.originalFilename == Some(Basename(fileLoc))
    ensures b.properties == map["discriminator" := discriminator, "id" := host.md5(ns + discriminator)]
  {
    FileBody(MimeType(host, fileLoc), VERSIONED_FILENAME, None, Some(Basename(fileLoc)),
             map["discriminator" := discriminator, "id" := host.md5(ns + discriminator)], true, Some("multipart"))
  }

  /** An update carries exactly what the create carried, except `parents`. */
  lemma UpdateBodyIsVersionedBody(host: Host, ns: string, discriminator: string, fileLoc: string, dirId: FileId)
    ensures UpdateBody(host, ns, discriminator, fileLoc) == VersionedBody(host, ns, discriminator, fileLoc, dirId).(parents := None)
  {
  }

  /** The body fields as the PHP array that `outputServiceParams` prints, in the source's key order. */
  function BodyFields(b: FileBody): PArray {
    [Entry(StrKey("mimeType"), Str(b.mimeType))]
    + (if b.properties == map[] then [] else [Entry(StrKey("properties"), Arr(PropertyFields(b.properties)))])
    + (if b.originalFilename.Some? then [Entry(StrKey("originalFilename"), Str(b.originalFilename.value))] else [])
    + (if b.keepRevisionForever then [Entry(StrKey("keepRevisionForever"), Bool(true))] else [])
    + (if b.uploadType.Some? then [Entry(StrKey("uploadType"), Str(b.uploadType.value))] else [])
    + [Entry(StrKey("name"), Str(b.name))]
    + (if b.parents.Some? then [Entry(StrKey("parents"), Arr(Reindex(IdValues(b.parents.value))))] else [])
  }

  function PropertyFields(p: map<string, string>): PArray {
    (if "discriminator" in p then [Entry(StrKey("discriminator"), Str(p["discriminator"]))] else [])
    + (if "id" in p then [Entry(StrKey("id"), Str(p["id"]))] else [])
  }

  function IdValues(ids: seq<FileId>): seq<Value> {
    seq(|ids|, i requires 0 <= i < |ids| => Str(NatToString(ids[i])))
  }

  /** The options array of a write carrying the file's contents. */
  function DataOpts(contents: string): PArray {
    [Entry(DATA, Str(contents))]
  }

  /**
   * What `outputServiceParams` prints of a parameter array: a truthy
   * `data` entry is masked (and moves to the end), a falsy one is dropped,
   * and every other entry is printed as it is.
   */
  function Redacted(fields: PArray): (r: PArray)
    ensures forall k :: k != DATA ==> Get(r, k) == Get(fields, k)
    ensures !IsSet(fields, DATA) ==> r == fields
    ensures IsSet(fields, DATA) && Truthy(Get(fields, DATA).value) ==> Get(r, DATA) == Some(Str(REDACTED))
    ensures IsSet(fields, DATA) && !Truthy(Get(fields, DATA).value) ==> !HasKey(r, DATA)
  {
    if !IsSet(fields, DATA) then fields
    else if Truthy(Get(fields, DATA).value) then Assign(Unset(fields, DATA), DATA, Str(REDACTED))
    else Unset(fields, DATA)
  }

  /** The duplicate-folder failure's text: the namespace searched for. */
  function NamespaceDetail(ns: string): (d: string)
    ensures |d| == |"Namespace: "| + |ns| && d[|"Namespace: "|..] == ns
  {
    "Namespace: " + ns
  }

  lemma NamespaceDetailInjective(a: string, b: string)
    ensures NamespaceDetail(a) == NamespaceDetail(b) ==> a == b
  {
    if NamespaceDetail(a) == NamespaceDetail(b) {
      assert a == NamespaceDetail(a)[|"Namespace: "|..];
    }
  }

  /**
   * The duplicate-folder text as `queryForDirectory` writes it: it
   * interpolates a local `$ns` the method never defines, which PHP reads as
   * the empty string.
   */
  function NamespaceDetailAsWritten(ns: string): (d: string)
    ensures d == NamespaceDetail("")
  {
    "Namespace: "
  }

  /** Two namespaces' duplicate folders raise the same text: the namespace is lost. */
  lemma NamespaceDetailAsWrittenLosesNamespace()
    ensures NamespaceDetailAsWritten("photos") == NamespaceDetailAsWritten("invoices")
    ensures NamespaceDetail("photos") != NamespaceDetail("invoices")
  {
    NamespaceDetailInjective("photos", "invoices");
  }

  function DuplicateDirectory(ns: string): Failure {
    VersionerException(DuplicateNamespaceDirectory, NamespaceDetail(ns), 0, None)
  }

  function DuplicateVersioned(dirName: string): Failure {
    VersionerException(DuplicateVersionedFile, NamespaceDetail(dirName), 0, None)
  }

  const CannotList := VersionerException(DriveCannotListVersionedFile, "", 0, None)

  lemma OnlyMember(fs: set<DriveFile>, f: DriveFile)
    requires |fs| == 1 && f in fs
    ensures fs == {f}
  {
    assert |fs - {f}| == 0;
  }

  /** The single file of a one-file search result. */
  ghost function Found(fs: set<DriveFile>): (f: DriveFile)
    requires |fs| == 1
    ensures fs == {f}
  {
    var f :| f in fs;
    OnlyMember(fs, f);
    f
  }

  /**
   * What a folder or container query returns for a search outcome: the
   * failure `filterCommonExceptions` raises, nothing when it returns
   * normally, the duplicate failure for more than one file, else the file.
   */
  ghost function SearchResult(o: Outcome<set<DriveFile>>, duplicate: Failure): Result<Option<DriveFile>> {
    match o
    case Thrown(e) => if Classify(e).Some? then Err(Classify(e).value) else Ok(None)
    case Done(fs) =>
      if |fs| > 1 then Err(duplicate)
      else if fs == {} then Ok(None)
      else Ok(Some(Found(fs)))
  }

  /** A call `version` may make before its one write. */
  predicate Harmless(c: Call, dirBody: FileBody) {
    c.ListFilesCall? || c.ListRevisionsCall? || c == CreateCall(dirBody, None)
  }

  /** The `revisions->update` calls `updateAllRevisions` makes, in order. */
  function KeepForeverCalls(fileId: FileId, revs: seq<Revision>): (cs: seq<Call>)
    ensures |cs| == |revs|
  {
    if revs == [] then []
    else KeepForeverCalls(fileId, revs[..|revs| - 1]) + [UpdateRevisionCall(fileId, revs[|revs| - 1].id, RevisionBody(Some(true)))]
  }

  /** The i-th call asks Drive to keep the i-th listed revision forever. */
  lemma {:induction false} KeepForeverCallsAt(fileId: FileId, revs: seq<Revision>, i: nat)
    requires i < |revs|
    ensures KeepForeverCalls(fileId, revs)[i] == UpdateRevisionCall(fileId, revs[i].id, RevisionBody(Some(true)))
  {
    if i < |revs| - 1 {
      KeepForeverCallsAt(fileId, revs[..|revs| - 1], i);
    }
  }

  /**
   * What the cache can hold under each key: a folder under the root named
   * after the key's namespace, a file named `versioned`, never a revision
   * list under a version-list key, and a revision list under a list key
   * only once the container of that namespace is cached.
   */
  ghost predicate EntryShaped(cache: map<CacheKey, Cached>, rootId: FileId, k: CacheKey)
    requires k in cache
  {
    match k.op
    case ForDirectory =>
      !cache[k].CachedRevisions? && (cache[k].CachedFile? ==> Matches(cache[k].file.meta, DirectorySearch(rootId, k.ns)))
    case ForVersioned =>
      !cache[k].CachedRevisions? && (cache[k].CachedFile? ==> cache[k].file.meta.name == VERSIONED_FILENAME)
    case ForVersionList => cache[k] == NullEntry
    case ForList => !cache[k].CachedFile? && (cache[k].CachedRevisions? ==> CachedFileAt(cache, CacheKey(ForVersioned, k.ns)))
  }

  ghost predicate CacheShaped(cache: map<CacheKey, Cached>, rootId: FileId) {
    forall k :: k in cache ==> EntryShaped(cache, rootId, k)
  }

  /** Caching a listing keeps the cache well shaped once the namespace's container is cached. */
  lemma CacheListing(cache: map<CacheKey, Cached>, rootId: FileId, ns: string, revisions: seq<Revision>)
    requires CacheShaped(cache, rootId) && CachedFileAt(cache, CacheKey(ForVersioned, ns))
    ensures CacheShaped(cache[CacheKey(ForList, ns) := CachedRevisions(revisions)], rootId)
  {
    var cache' := cache[CacheKey(ForList, ns) := CachedRevisions(revisions)];
    forall k | k in cache'
      ensures EntryShaped(cache', rootId, k)
    {
      if k != CacheKey(ForList, ns) {
        assert EntryShaped(cache, rootId, k);
      }
    }
  }

  /** How `version` ended. */
  datatype VersionPath =
    | Unreadable
    | Failed
    | AlreadyVersioned(container: DriveFile, history: seq<Revision>)
    | NewRevision(container: DriveFile, history: seq<Revision>)
    | NewContainer(dir: DriveFile)

  /* --------------------------------------------------------------- output */

  datatype LogText = Says(message: Message, detail: string) | Params(prefix: string, fields: PArray)

  /** A console line: `" | <mode> : <ns> : <discriminator> | <text>"`. */
  datatype Line = Line(mode: Mode, ns: string, discriminator: string, text: LogText)

  /* -------------------------------------------------------------- lookups */

  /** The folder a directory query finds for a namespace: the cached folder, or a search under the root. */
  ghost function DirectoryLookup(cache: map<CacheKey, Cached>, d: Drive, faults: Faults, rootId: FileId, ns: string): Result<Option<DriveFile>> {
    var key := CacheKey(ForDirectory, ns);
    if CachedFileAt(cache, key) then Ok(Some(cache[key].file))
    else SearchResult(ListOutcome(d, faults, DirectorySearch(rootId, ns)), DuplicateDirectory(ns))
  }

  /** The container a query finds in a folder; the cache entry is per namespace, whatever the folder. */
  ghost function VersionedLookup(cache: map<CacheKey, Cached>, d: Drive, faults: Faults, ns: string, dir: DriveFile): Result<Option<DriveFile>> {
    var key := CacheKey(ForVersioned, ns);
    if CachedFileAt(cache, key) then Ok(Some(cache[key].file))
    else SearchResult(ListOutcome(d, faults, VersionedSearch(dir.id)), DuplicateVersioned(dir.meta.name))
  }

  /** What `queryForVersionList` returns: the history, or the failure; a swallowed exception ends in a `TypeError`. */
  function VersionListLookup(d: Drive, faults: Faults, id: FileId): Result<seq<Revision>> {
    match ListRevisionsProblem(d, faults, id)
    case None => Ok(d.revisions[id])
    case Some(e) => if Classify(e).Some? then Err(Classify(e).value) else Err(TypeError)
  }

  /** What `list` returns for a namespace when its listing is not cached. */
  ghost function ListLookup(cache: map<CacheKey, Cached>, d: Drive, faults: Faults, rootId: FileId, ns: string): Result<seq<Revision>> {
    match DirectoryLookup(cache, d, faults, rootId, ns)
    case Err(f) => Err(f)
    case Ok(None) => Err(CannotList)
    case Ok(Some(dir)) => ListedIn(cache, d, faults, ns, dir)
  }

  /** What `list` returns once the namespace folder `dir` is known: the container's history, if there is a container. */
  ghost function ListedIn(cache: map<CacheKey, Cached>, d: Drive, faults: Faults, ns: string, dir: DriveFile): Result<seq<Revision>> {
    match VersionedLookup(cache, d, faults, ns, dir)
    case Err(f) => Err(f)
    case Ok(None) => Err(CannotList)
    case Ok(Some(v)) => VersionListLookup(d, faults, v.id)
  }

  /** The calls `list` makes once the folder `dir` is known: the container search unless cached, then the history listing. */
  ghost function ListInCalls(cache: map<CacheKey, Cached>, d: Drive, faults: Faults, ns: string, dir: DriveFile): seq<Call> {
    SearchCalls(cache, CacheKey(ForVersioned, ns), VersionedSearch(dir.id))
    + match VersionedLookup(cache, d, faults, ns, dir)
      case Ok(Some(v)) => [ListRevisionsCall(v.id)]
      case _ => []
  }

  /** Two caches that agree on a namespace's container entry give the same rest of `list`. */
  lemma ListInFrame(c1: map<CacheKey, Cached>, c2: map<CacheKey, Cached>, d: Drive, faults: Faults, ns: string, dir: DriveFile)
    requires Lookup(c1, CacheKey(ForVersioned, ns)) == Lookup(c2, CacheKey(ForVersioned, ns))
    ensures ListedIn(c1, d, faults, ns, dir) == ListedIn(c2, d, faults, ns, dir)
    ensures ListInCalls(c1, d, faults, ns, dir) == ListInCalls(c2, d, faults, ns, dir)
  {
    VersionedLookupFrame(c1, c2, d, faults, ns, dir);
  }

  /**
   * The cache `list` leaves once the folder `dir` is known: the container
   * search is cached, a swallowed history exception leaves its null, and a
   * history listed is cached as the namespace's listing.
   */
  ghost function ListInCache(cache: map<CacheKey, Cached>, d: Drive, faults: Faults, ns: string, dir: DriveFile): (c: map<CacheKey, Cached>)
    ensures ListedIn(cache, d, faults, ns, dir).Ok? ==>
              Lookup(c, CacheKey(ForList, ns)) == CachedRevisions(ListedIn(cache, d, faults, ns, dir).value)
    ensures ListedIn(cache, d, faults, ns, dir).Err? ==> Lookup(c, CacheKey(ForList, ns)) == Lookup(cache, CacheKey(ForList, ns))
  {
    var found := VersionedLookup(cache, d, faults, ns, dir);
    var searched := SearchCache(cache, CacheKey(ForVersioned, ns), found);
    match found
    case Ok(Some(v)) =>
      (match VersionListLookup(d, faults, v.id)
       case Ok(history) => searched[CacheKey(ForList, ns) := CachedRevisions(history)]
       case Err(f) => if f == TypeError then searched[CacheKey(ForVersionList, ns) := NullEntry] else searched)
    case _ => searched
  }

  /**
   * The cache `list(ns)` leaves: unchanged for a cached listing; otherwise
   * the folder search is cached, then what `ListInCache` adds. Only entries
   * of `ns` change, and the listing is cached exactly when `list` succeeds.
   */
  ghost function ListCache(cache: map<CacheKey, Cached>, d: Drive, faults: Faults, rootId: FileId, ns: string): (c: map<CacheKey, Cached>)
    ensures Listed(cache, d, faults, rootId, ns).Ok? ==>
              Lookup(c, CacheKey(ForList, ns)) == CachedRevisions(Listed(cache, d, faults, rootId, ns).value)
    ensures Listed(cache, d, faults, rootId, ns).Err? ==> Lookup(c, CacheKey(ForList, ns)) == Lookup(cache, CacheKey(ForList, ns))
  {
    if Lookup(cache, CacheKey(ForList, ns)).CachedRevisions? then cache
    else
      var found := DirectoryLookup(cache, d, faults, rootId, ns);
      var searched := SearchCache(cache, CacheKey(ForDirectory, ns), found);
      match found
      case Ok(Some(dir)) =>
        ListInFrame(searched, cache, d, faults, ns, dir);
        ListInCache(searched, d, faults, ns, dir)
      case _ => searched
  }

  /** `list` past the folder touches only the namespace's container, history and listing entries. */
  lemma ListInCacheFrame(cache: map<CacheKey, Cached>, d: Drive, faults: Faults, ns: string, dir: DriveFile, k: CacheKey)
    requires k.ns != ns || k.op == ForDirectory
    ensures Lookup(ListInCache(cache, d, faults, ns, dir), k) == Lookup(cache, k)
  {
  }

  /** `list(ns)` changes no cache entry of another namespace. */
  lemma ListCacheFrame(cache: map<CacheKey, Cached>, d: Drive, faults: Faults, rootId: FileId, ns: string, k: CacheKey)
    requires k.ns != ns
    ensures Lookup(ListCache(cache, d, faults, rootId, ns), k) == Lookup(cache, k)
  {
    var found := DirectoryLookup(cache, d, faults, rootId, ns);
    if !Lookup(cache, CacheKey(ForList, ns)).CachedRevisions? && found.Ok? && found.value.Some? {
      ListInCacheFrame(SearchCache(cache, CacheKey(ForDirectory, ns), found), d, faults, ns, found.value.value, k);
    }
  }

  /** Once the folder is found, `list` goes on as `ListIn` from the cache the folder search leaves. */
  lemma ListFromFolder(cache: map<CacheKey, Cached>, d: Drive, faults: Faults, rootId: FileId, ns: string, dir: DriveFile)
    requires !Lookup(cache, CacheKey(ForList, ns)).CachedRevisions?
    requires DirectoryLookup(cache, d, faults, rootId, ns) == Ok(Some(dir))
    ensures var searched := SearchCache(cache, CacheKey(ForDirectory, ns), Ok(Some(dir)));
            Listed(cache, d, faults, rootId, ns) == ListedIn(searched, d, faults, ns, dir)
            && ListCalls(cache, d, faults, rootId, ns)
               == SearchCalls(cache, CacheKey(ForDirectory, ns), DirectorySearch(rootId, ns)) + ListInCalls(searched, d, faults, ns, dir)
            && ListCache(cache, d, faults, rootId, ns) == ListInCache(searched, d, faults, ns, dir)
  {
    ListInFrame(SearchCache(cache, CacheKey(ForDirectory, ns), Ok(Some(dir))), cache, d, faults, ns, dir);
  }

  /** Without a folder, `list` fails with the folder query's failure, or with `CannotList`, after the folder search alone. */
  lemma ListWithoutFolder(cache: map<CacheKey, Cached>, d: Drive, faults: Faults, rootId: FileId, ns: string)
    requires !Lookup(cache, CacheKey(ForList, ns)).CachedRevisions?
    requires !DirectoryLookup(cache, d, faults, rootId, ns).Ok? || DirectoryLookup(cache, d, faults, rootId, ns).value.None?
    ensures var found := DirectoryLookup(cache, d, faults, rootId, ns);
            Listed(cache, d, faults, rootId, ns) == (if found.Err? then Err(found.error) else Err(CannotList))
            && ListCalls(cache, d, faults, rootId, ns) == SearchCalls(cache, CacheKey(ForDirectory, ns), DirectorySearch(rootId, ns))
            && ListCache(cache, d, faults, rootId, ns) == SearchCache(cache, CacheKey(ForDirectory, ns), found)
  {
  }

  /** Two caches that agree on a namespace's container entry give the same container lookup. */
  lemma VersionedLookupFrame(c1: map<CacheKey, Cached>, c2: map<CacheKey, Cached>, d: Drive, faults: Faults, ns: string, dir: DriveFile)
    requires Lookup(c1, CacheKey(ForVersioned, ns)) == Lookup(c2, CacheKey(ForVersioned, ns))
    ensures VersionedLookup(c1, d, faults, ns, dir) == VersionedLookup(c2, d, faults, ns, dir)
  {
    var key := CacheKey(ForVersioned, ns);
    assert CachedFileAt(c1, key) <==> Lookup(c1, key).CachedFile?;
    assert CachedFileAt(c2, key) <==> Lookup(c2, key).CachedFile?;
  }

  /**
   * How `version`, or the part of it after some lookup, ends: the result,
   * the path taken, and the Drive, the cache and the calls it leaves.
   */
  datatype VersionEnd = VersionEnd(result: Result<DriveFile>, path: VersionPath, drive: Drive,
                                   cache: map<CacheKey, Cached>, calls: seq<Call>)

  /** An end reached after `calls` were made first. */
  function After(calls: seq<Call>, e: VersionEnd): VersionEnd {
    e.(calls := calls + e.calls)
  }

  /** The cache after a query at `key` found `found`: a hit or a failure leaves it alone; otherwise what was found is cached. */
  function SearchCache(cache: map<CacheKey, Cached>, key: CacheKey, found: Result<Option<DriveFile>>): map<CacheKey, Cached> {
    if CachedFileAt(cache, key) || found.Err? then cache else cache[key := AsCached(found.value)]
  }

  /** The calls a query at `key` makes: none on a hit, one search otherwise. */
  function SearchCalls(cache: map<CacheKey, Cached>, key: CacheKey, q: Query): seq<Call> {
    if CachedFileAt(cache, key) then [] else [ListFilesCall(q)]
  }

  /**
   * How `version` ends once the container `c` is known: its history is
   * listed, and then the file is skipped when a revision carries its base
   * name, and uploaded as a new revision otherwise. A swallowed listing
   * exception leaves a null in the cache.
   */
  ghost function ContainerOutcome(cache: map<CacheKey, Cached>, d: Drive, faults: Faults, host: Host,
                                  ns: string, disc: string, fileLoc: string, c: DriveFile): VersionEnd
  {
    var list := [ListRevisionsCall(c.id)];
    match VersionListLookup(d, faults, c.id)
    case Err(f) =>
      VersionEnd(Err(f), Failed, d, if f == TypeError then cache[CacheKey(ForVersionList, ns) := NullEntry] else cache, list)
    case Ok(h) =>
      if exists i :: 0 <= i < |h| && h[i].originalFilename == Some(Basename(fileLoc)) then
        VersionEnd(Ok(c), AlreadyVersioned(c, h), d, cache, list)
      else
        var body := UpdateBody(host, ns, disc, fileLoc);
        var calls := list + [UpdateCall(c.id, body, Some(host.fileGetContents(fileLoc)))];
        match UpdateProblem(d, faults, c.id, body)
        case Some(e) => VersionEnd(Err(WriteFailure(e, DriveCannotUpdateVersionedFile)), Failed, d, cache, calls)
        case None => VersionEnd(Ok(c), NewRevision(c, h), Updated(d, c.id, body), cache, calls)
  }

  /** How `version` ends once the namespace folder `dir` is known: the container is found, or else created in it. */
  ghost function VersionInOutcome(cache: map<CacheKey, Cached>, d: Drive, faults: Faults, host: Host,
                                  ns: string, disc: string, fileLoc: string, dir: DriveFile): VersionEnd
  {
    VersionInFound(cache, d, faults, host, ns, disc, fileLoc, dir, VersionedLookup(cache, d, faults, ns, dir))
  }

  /** How `version` ends once the container query in `dir` has returned `found`. */
  ghost function VersionInFound(cache: map<CacheKey, Cached>, d: Drive, faults: Faults, host: Host,
                                ns: string, disc: string, fileLoc: string, dir: DriveFile, found: Result<Option<DriveFile>>): VersionEnd
  {
    var key := CacheKey(ForVersioned, ns);
    var search := SearchCalls(cache, key, VersionedSearch(dir.id));
    match found
    case Err(f) => VersionEnd(Err(f), Failed, d, SearchCache(cache, key, found), search)
    case Ok(o) => After(search, ContainerFound(SearchCache(cache, key, found), d, faults, host, ns, disc, fileLoc, dir, o))
  }

  /** How `version` ends once the container query in `dir` has returned normally: the container, or none, which is then created. */
  ghost function ContainerFound(cache: map<CacheKey, Cached>, d: Drive, faults: Faults, host: Host,
                                ns: string, disc: string, fileLoc: string, dir: DriveFile, o: Option<DriveFile>): VersionEnd
  {
    match o
    case Some(c) => ContainerOutcome(cache, d, faults, host, ns, disc, fileLoc, c)
    case None =>
      var body := VersionedBody(host, ns, disc, fileLoc, dir.id);
      var calls := [CreateCall(body, Some(host.fileGetContents(fileLoc)))];
      match CreateProblem(d, faults, body)
      case Some(e) => VersionEnd(Err(WriteFailure(e, DriveCannotCreateVersionedFile)), Failed, d, cache, calls)
      case None => VersionEnd(Ok(DriveFile(d.nextId, NewMeta(body))), NewContainer(dir), Created(d, body), cache, calls)
  }

  /**
   * How `version(fileLoc, ns, disc)` ends, from the cache, the Drive and
   * the faults it starts with: an unreadable file fails first, with no
   * call; then the namespace folder is found, or else created, and the
   * rest follows `VersionInOutcome` on the cache and the Drive as they
   * then are.
   */
  ghost function VersionOutcome(cache: map<CacheKey, Cached>, d: Drive, faults: Faults, host: Host, rootId: FileId,
                                ns: string, disc: string, fileLoc: string): VersionEnd
  {
    if !host.isReadable(fileLoc) then
      VersionEnd(Err(VersionerException(VersionableFileNotReadable, "File not readable: " + fileLoc, 0, None)), Unreadable, d, cache, [])
    else
      var n := DirectoryOutcome(cache, d, faults, rootId, ns);
      match n.result
      case Err(f) => VersionEnd(Err(f), Failed, n.drive, n.cache, n.calls)
      case Ok(dir) => After(n.calls, VersionInOutcome(n.cache, n.drive, faults, host, ns, disc, fileLoc, dir))
  }

  /** How `NamespaceDirectory` ends: the folder or the failure, and the Drive, the cache and the calls it leaves. */
  datatype DirEnd = DirEnd(result: Result<DriveFile>, drive: Drive, cache: map<CacheKey, Cached>, calls: seq<Call>)

  /**
   * The namespace folder as the folder query finds it, or else as
   * `createDirectory` makes it under the root.
   */
  ghost function DirectoryOutcome(cache: map<CacheKey, Cached>, d: Drive, faults: Faults, rootId: FileId, ns: string): DirEnd
  {
    var key := CacheKey(ForDirectory, ns);
    var found := DirectoryLookup(cache, d, faults, rootId, ns);
    var cache' := SearchCache(cache, key, found);
    var search := SearchCalls(cache, key, DirectorySearch(rootId, ns));
    match found
    case Err(f) => DirEnd(Err(f), d, cache', search)
    case Ok(Some(dir)) => DirEnd(Ok(dir), d, cache', search)
    case Ok(None) =>
      var body := DirBody(rootId, ns);
      var calls := search + [CreateCall(body, None)];
      match CreateProblem(d, faults, body)
      case Some(e) => DirEnd(Err(DirectoryFailure(e, rootId)), d, cache', calls)
      case None => DirEnd(Ok(DriveFile(d.nextId, NewMeta(body))), Created(d, body), cache', calls)
  }

  /** The calls of a `version` run before its one upload of the file's contents, when it ends with one. */
  function Reads(calls: seq<Call>): (r: seq<Call>)
    ensures |r| <= |calls| && r == calls[..|r|]
  {
    if calls != [] && (calls[|calls| - 1].CreateCall? || calls[|calls| - 1].UpdateCall?) && calls[|calls| - 1].data.Some?
    then calls[..|calls| - 1]
    else calls
  }

  /** Calls with no upload at their end stay in front of the calls after them. */
  lemma ReadsAfter(a: seq<Call>, b: seq<Call>)
    requires Reads(a) == a
    ensures Reads(a + b) == a + Reads(b)
  {
    if b == [] {
      assert a + b == a;
    } else {
      assert (a + b)[|a + b| - 1] == b[|b| - 1];
      if Reads(b) != b {
        assert (a + b)[..|a + b| - 1] == a + b[..|b| - 1];
      }
    }
  }

  /**
   * The promises of a run of `version` once the folder `dir` is known,
   * started on Drive `d` after the calls `before`: it fails exactly on the
   * `Failed` path; before its one upload it only searches and lists; a
   * skipped file leaves the Drive as it was; a new revision is one update
   * appending to the container's history; a new container is one create.
   */
  ghost predicate InEnded(e: VersionEnd, d: Drive, host: Host, ns: string, disc: string, fileLoc: string, dir: DriveFile,
                          before: seq<Call>)
  {
    var lk := Reads(e.calls);
    !e.path.Unreadable? && (e.result.Err? <==> e.path.Failed?)
    && (forall c :: c in lk ==> c.ListFilesCall? || c.ListRevisionsCall?)
    && e.drive.nextId >= d.nextId
    && (e.path.AlreadyVersioned? ==> e.calls == lk && e.drive == d)
    && (e.path.AlreadyVersioned? || e.path.NewRevision? ==>
          e.result == Ok(e.path.container) && e.path.container.meta.name == VERSIONED_FILENAME
          && e.path.container.id in d.revisions && e.path.history == d.revisions[e.path.container.id])
    && (e.path.AlreadyVersioned? ==>
          exists i :: 0 <= i < |e.path.history| && e.path.history[i].originalFilename == Some(Basename(fileLoc)))
    && (e.path.NewRevision? ==>
          (forall i :: 0 <= i < |e.path.history| ==> e.path.history[i].originalFilename != Some(Basename(fileLoc)))
          && before + e.calls == before + lk
                                 + [UpdateCall(e.path.container.id, UpdateBody(host, ns, disc, fileLoc), Some(host.fileGetContents(fileLoc)))]
          && e.drive.revisions == d.revisions[e.path.container.id := Appended(e.path.history, UpdateBody(host, ns, disc, fileLoc))])
    && (e.path.NewContainer? ==>
          e.path.dir == dir
          && before + e.calls == before + lk + [CreateCall(VersionedBody(host, ns, disc, fileLoc, dir.id), Some(host.fileGetContents(fileLoc)))]
          && e.result.Ok? && d.nextId <= e.result.value.id
          && e.result.value.meta == NewMeta(VersionedBody(host, ns, disc, fileLoc, dir.id))
          && e.result.value.id in e.drive.files && e.drive.files[e.result.value.id] == e.result.value.meta)
  }

  /**
   * The promises of a whole run of `version`, started with cache `cache`
   * and Drive `d` after the calls `before`: `InEnded`'s, with an
   * unreadable file failing first and changing nothing, and with the
   * folder's own search and create among the calls before the upload.
   */
  ghost predicate VersionEnded(e: VersionEnd, cache: map<CacheKey, Cached>, d: Drive, host: Host, rootId: FileId,
                               ns: string, disc: string, fileLoc: string, before: seq<Call>)
  {
    var lk := Reads(e.calls);
    (e.path.Unreadable? <==> !host.isReadable(fileLoc))
    && (e.result.Err? <==> e.path.Unreadable? || e.path.Failed?)
    && (e.path.Unreadable? ==>
          e.result == Err(VersionerException(VersionableFileNotReadable, "File not readable: " + fileLoc, 0, None))
          && e.calls == [] && e.cache == cache && e.drive == d)
    && (forall c :: c in lk ==> Harmless(c, DirBody(rootId, ns)))
    && e.drive.nextId >= d.nextId
    && (e.path.Unreadable? || e.path.AlreadyVersioned? ==> e.calls == lk && e.drive.revisions == d.revisions)
    && (e.path.AlreadyVersioned? || e.path.NewRevision? ==>
          e.result == Ok(e.path.container) && e.path.container.meta.name == VERSIONED_FILENAME
          && e.path.container.id in d.revisions && e.path.history == d.revisions[e.path.container.id])
    && (e.path.AlreadyVersioned? ==>
          exists i :: 0 <= i < |e.path.history| && e.path.history[i].originalFilename == Some(Basename(fileLoc)))
    && (e.path.NewRevision? ==>
          (forall i :: 0 <= i < |e.path.history| ==> e.path.history[i].originalFilename != Some(Basename(fileLoc)))
          && before + e.calls == before + lk
                                 + [UpdateCall(e.path.container.id, UpdateBody(host, ns, disc, fileLoc), Some(host.fileGetContents(fileLoc)))]
          && e.drive.revisions == d.revisions[e.path.container.id := Appended(e.path.history, UpdateBody(host, ns, disc, fileLoc))])
    && (e.path.NewContainer? ==>
          Matches(e.path.dir.meta, DirectorySearch(rootId, ns))
          && before + e.calls == before + lk
                                 + [CreateCall(VersionedBody(host, ns, disc, fileLoc, e.path.dir.id), Some(host.fileGetContents(fileLoc)))]
          && e.result.Ok? && d.nextId <= e.result.value.id
          && e.result.value.meta == NewMeta(VersionedBody(host, ns, disc, fileLoc, e.path.dir.id))
          && e.result.value.id in e.drive.files && e.drive.files[e.result.value.id] == e.result.value.meta)
  }

  /**
   * What a run of `version` ends with once the container `c` is known:
   * the listing comes first; a skipped file changes nothing, and a new
   * revision is one update call that appends to the container's history.
   */
  lemma ContainerEnds(cache: map<CacheKey, Cached>, d: Drive, faults: Faults, host: Host,
                      ns: string, disc: string, fileLoc: string, c: DriveFile)
    ensures var e := ContainerOutcome(cache, d, faults, host, ns, disc, fileLoc, c);
            (e.path.Failed? || e.path.AlreadyVersioned? || e.path.NewRevision?)
            && (e.result.Err? <==> e.path.Failed?)
            && e.drive.nextId == d.nextId
            && e.calls != [] && Reads(e.calls) == [ListRevisionsCall(c.id)]
            && (e.path.AlreadyVersioned? ==> e.calls == [ListRevisionsCall(c.id)] && e.drive == d)
            && (e.path.AlreadyVersioned? || e.path.NewRevision? ==>
                  e.result == Ok(c) && e.path.container == c
                  && c.id in d.revisions && e.path.history == d.revisions[c.id])
            && (e.path.AlreadyVersioned? ==>
                  exists i :: 0 <= i < |e.path.history| && e.path.history[i].originalFilename == Some(Basename(fileLoc)))
            && (e.path.NewRevision? ==>
                  (forall i :: 0 <= i < |e.path.history| ==> e.path.history[i].originalFilename != Some(Basename(fileLoc)))
                  && e.calls == [ListRevisionsCall(c.id), UpdateCall(c.id, UpdateBody(host, ns, disc, fileLoc), Some(host.fileGetContents(fileLoc)))]
                  && e.drive.revisions == d.revisions[c.id := Appended(e.path.history, UpdateBody(host, ns, disc, fileLoc))])
  {
  }

  /** Once the container query has returned normally, the run keeps `InEnded`'s promises and makes at least one call. */
  lemma ContainerFoundEnds(cache: map<CacheKey, Cached>, d: Drive, faults: Faults, host: Host, ns: string, disc: string,
                           fileLoc: string, dir: DriveFile, o: Option<DriveFile>, before: seq<Call>)
    requires o.Some? ==> o.value.meta.name == VERSIONED_FILENAME
    ensures var e := ContainerFound(cache, d, faults, host, ns, disc, fileLoc, dir, o);
            e.calls != [] && InEnded(e, d, host, ns, disc, fileLoc, dir, before)
  {
    match o
    case Some(c) =>
      ContainerEnds(cache, d, faults, host, ns, disc, fileLoc, c);
      var u := UpdateCall(c.id, UpdateBody(host, ns, disc, fileLoc), Some(host.fileGetContents(fileLoc)));
      assert [ListRevisionsCall(c.id), u] == [ListRevisionsCall(c.id)] + [u];
      AppendAssoc(before, [ListRevisionsCall(c.id)], [u]);
    case None =>
      assert before + [] == before;
  }

  /** Searches made first keep `InEnded`'s promises, counted from before them. */
  lemma InEndedAfter(e: VersionEnd, search: seq<Call>, d: Drive, host: Host, ns: string, disc: string, fileLoc: string,
                     dir: DriveFile, before: seq<Call>)
    requires Reads(search) == search && forall c :: c in search ==> c.ListFilesCall?
    requires InEnded(e, d, host, ns, disc, fileLoc, dir, before + search)
    ensures InEnded(After(search, e), d, host, ns, disc, fileLoc, dir, before)
  {
    ReadsAfter(search, e.calls);
    AppendAssoc(before, search, e.calls);
    AppendAssoc(before, search, Reads(e.calls));
  }

  /** A container the lookup finds, in the cache or by the search, is named `versioned`. */
  lemma VersionedLookupNamed(cache: map<CacheKey, Cached>, d: Drive, faults: Faults, rootId: FileId, ns: string, dir: DriveFile)
    requires CacheShaped(cache, rootId)
    requires VersionedLookup(cache, d, faults, ns, dir).Ok? && VersionedLookup(cache, d, faults, ns, dir).value.Some?
    ensures VersionedLookup(cache, d, faults, ns, dir).value.value.meta.name == VERSIONED_FILENAME
  {
    var key := CacheKey(ForVersioned, ns);
    if CachedFileAt(cache, key) {
      assert EntryShaped(cache, rootId, key);
    } else {
      var fs := Matching(d, VersionedSearch(dir.id));
      assert ListOutcome(d, faults, VersionedSearch(dir.id)) == Done(fs);
      assert Found(fs) in fs;
    }
  }

  /** A folder the lookup finds, in the cache or by the search, is the namespace's folder under the root. */
  lemma DirectoryLookupMatches(cache: map<CacheKey, Cached>, d: Drive, faults: Faults, rootId: FileId, ns: string)
    requires CacheShaped(cache, rootId)
    requires DirectoryLookup(cache, d, faults, rootId, ns).Ok? && DirectoryLookup(cache, d, faults, rootId, ns).value.Some?
    ensures Matches(DirectoryLookup(cache, d, faults, rootId, ns).value.value.meta, DirectorySearch(rootId, ns))
  {
    var key := CacheKey(ForDirectory, ns);
    if CachedFileAt(cache, key) {
      assert EntryShaped(cache, rootId, key);
    } else {
      var fs := Matching(d, DirectorySearch(rootId, ns));
      assert ListOutcome(d, faults, DirectorySearch(rootId, ns)) == Done(fs);
      assert Found(fs) in fs;
    }
  }

  /** Caching what the folder query found keeps the cache well shaped. */
  lemma DirectoryCacheShaped(cache: map<CacheKey, Cached>, rootId: FileId, ns: string, found: Result<Option<DriveFile>>)
    requires CacheShaped(cache, rootId)
    requires found.Ok? && found.value.Some? ==> Matches(found.value.value.meta, DirectorySearch(rootId, ns))
    ensures CacheShaped(SearchCache(cache, CacheKey(ForDirectory, ns), found), rootId)
  {
    var key := CacheKey(ForDirectory, ns);
    var cache' := SearchCache(cache, key, found);
    forall k | k in cache'
      ensures EntryShaped(cache', rootId, k)
    {
      if k != key {
        assert EntryShaped(cache, rootId, k);
      }
    }
  }

  /** The run past the folder query, whatever `found` is, keeps `InEnded`'s promises. */
  lemma VersionInEnds(cache: map<CacheKey, Cached>, d: Drive, faults: Faults, host: Host, ns: string, disc: string,
                      fileLoc: string, dir: DriveFile, found: Result<Option<DriveFile>>, before: seq<Call>)
    requires found.Ok? && found.value.Some? ==> found.value.value.meta.name == VERSIONED_FILENAME
    ensures InEnded(VersionInFound(cache, d, faults, host, ns, disc, fileLoc, dir, found), d, host, ns, disc, fileLoc, dir, before)
  {
    var key := CacheKey(ForVersioned, ns);
    var search := SearchCalls(cache, key, VersionedSearch(dir.id));
    match found
    case Err(_) =>
    case Ok(o) =>
      var cache' := SearchCache(cache, key, found);
      ContainerFoundEnds(cache', d, faults, host, ns, disc, fileLoc, dir, o, before + search);
      InEndedAfter(ContainerFound(cache', d, faults, host, ns, disc, fileLoc, dir, o), search, d, host, ns, disc, fileLoc, dir, before);
  }

  /**
   * Harmless calls made first, on a Drive `d` that the folder's creation,
   * if any, turned into `d'`, carry `InEnded`'s promises over to those of
   * a whole run.
   */
  lemma InVersionEnded(e: VersionEnd, pre: seq<Call>, cache: map<CacheKey, Cached>, d: Drive, d': Drive, host: Host,
                       rootId: FileId, ns: string, disc: string, fileLoc: string, dir: DriveFile, before: seq<Call>)
    requires host.isReadable(fileLoc)
    requires Reads(pre) == pre && forall c :: c in pre ==> Harmless(c, DirBody(rootId, ns))
    requires d'.revisions == d.revisions && d.nextId <= d'.nextId
    requires Matches(dir.meta, DirectorySearch(rootId, ns))
    requires InEnded(e, d', host, ns, disc, fileLoc, dir, before + pre)
    ensures VersionEnded(After(pre, e), cache, d, host, rootId, ns, disc, fileLoc, before)
  {
    ReadsAfter(pre, e.calls);
    AppendAssoc(before, pre, e.calls);
    AppendAssoc(before, pre, Reads(e.calls));
  }

  /**
   * A readable file's run once the folder `dir` is known, after the
   * harmless calls `pre` and on the Drive `d'` they left, keeps
   * `VersionEnded`'s promises counted from Drive `d`.
   */
  lemma DirectoryKnownEnds(cache: map<CacheKey, Cached>, cache': map<CacheKey, Cached>, d: Drive, d': Drive, faults: Faults,
                           host: Host, rootId: FileId, ns: string, disc: string, fileLoc: string, dir: DriveFile,
                           pre: seq<Call>, before: seq<Call>)
    requires CacheShaped(cache', rootId) && host.isReadable(fileLoc)
    requires Reads(pre) == pre && forall c :: c in pre ==> Harmless(c, DirBody(rootId, ns))
    requires d'.revisions == d.revisions && d.nextId <= d'.nextId
    requires Matches(dir.meta, DirectorySearch(rootId, ns))
    ensures VersionEnded(After(pre, VersionInOutcome(cache', d', faults, host, ns, disc, fileLoc, dir)), cache, d, host, rootId,
                         ns, disc, fileLoc, before)
  {
    var vf := VersionedLookup(cache', d', faults, ns, dir);
    if vf.Ok? && vf.value.Some? {
      VersionedLookupNamed(cache', d', faults, rootId, ns, dir);
    }
    VersionInEnds(cache', d', faults, host, ns, disc, fileLoc, dir, vf, before + pre);
    InVersionEnded(VersionInFound(cache', d', faults, host, ns, disc, fileLoc, dir, vf), pre, cache, d, d', host, rootId, ns, disc,
                   fileLoc, dir, before);
  }

  /**
   * The folder step makes only harmless calls, none of them an upload, and
   * leaves the revisions alone.
   */
  lemma DirectoryCallsEnd(cache: map<CacheKey, Cached>, d: Drive, faults: Faults, rootId: FileId, ns: string)
    ensures var n := DirectoryOutcome(cache, d, faults, rootId, ns);
            Reads(n.calls) == n.calls && (forall c :: c in n.calls ==> Harmless(c, DirBody(rootId, ns)))
            && n.drive.revisions == d.revisions && d.nextId <= n.drive.nextId
  {
    var search := SearchCalls(cache, CacheKey(ForDirectory, ns), DirectorySearch(rootId, ns));
    assert forall c :: c in search ==> c.ListFilesCall?;
  }

  /** The folder step leaves the cache well shaped, and what it returns is the namespace's folder under the root. */
  lemma DirectoryEnds(cache: map<CacheKey, Cached>, d: Drive, faults: Faults, rootId: FileId, ns: string)
    requires CacheShaped(cache, rootId)
    ensures var n := DirectoryOutcome(cache, d, faults, rootId, ns);
            CacheShaped(n.cache, rootId) && (n.result.Ok? ==> Matches(n.result.value.meta, DirectorySearch(rootId, ns)))
  {
    var found := DirectoryLookup(cache, d, faults, rootId, ns);
    if found.Ok? && found.value.Some? {
      DirectoryLookupMatches(cache, d, faults, rootId, ns);
    }
    DirectoryCacheShaped(cache, rootId, ns, found);
  }

  /** Every run of `version` keeps `VersionEnded`'s promises. */
  lemma VersionEnds(cache: map<CacheKey, Cached>, d: Drive, faults: Faults, host: Host, rootId: FileId,
                    ns: string, disc: string, fileLoc: string, before: seq<Call>)
    requires CacheShaped(cache, rootId)
    ensures VersionEnded(VersionOutcome(cache, d, faults, host, rootId, ns, disc, fileLoc), cache, d, host, rootId, ns, disc, fileLoc, before)
  {
    if host.isReadable(fileLoc) {
      var n := DirectoryOutcome(cache, d, faults, rootId, ns);
      DirectoryEnds(cache, d, faults, rootId, ns);
      DirectoryCallsEnd(cache, d, faults, rootId, ns);
      if n.result.Ok? {
        DirectoryKnownEnds(cache, n.cache, d, n.drive, faults, host, rootId, ns, disc, fileLoc, n.result.value, n.calls, before);
      }
    }
  }

  /** What `updateRevision` raises for an exception: the classified failure, or a `TypeError` when none is raised. */
  function RevisionFailure(e: GoogleException): Failure {
    if Classify(e).Some? then Classify(e).value else TypeError
  }

  /**
   * The position of the first listed revision whose keep-forever update
   * fails, or the number of revisions when none does.
   */
  function FirstKeepProblem(d: Drive, faults: Faults, fileId: FileId, revs: seq<Revision>): (n: nat)
    ensures n <= |revs|
    ensures forall j :: 0 <= j < n ==> UpdateRevisionProblem(d, faults, fileId, revs[j].id).None?
    ensures n < |revs| ==> UpdateRevisionProblem(d, faults, fileId, revs[n].id).Some?
  {
    if revs == [] then 0
    else if UpdateRevisionProblem(d, faults, fileId, revs[0].id).Some? then 0
    else 1 + FirstKeepProblem(d, faults, fileId, revs[1..])
  }

  /** How many keep-forever calls the loop over `revs` makes: up to and including the first that fails. */
  function KeepMade(d0: Drive, faults: Faults, fileId: FileId, revs: seq<Revision>): (made: nat)
    ensures made <= |revs|
  {
    var n := FirstKeepProblem(d0, faults, fileId, revs);
    if n < |revs| then n + 1 else n
  }

  /**
   * The keep-forever loop over `revs`, started on Drive `d0`, left Drive
   * `d` and returned `r`: it succeeds, with every revision kept, exactly
   * when no update fails, and otherwise fails as the first failing update.
   */
  ghost predicate KeepEnded(d0: Drive, faults: Faults, fileId: FileId, revs: seq<Revision>, d: Drive, r: Result<()>) {
    var n := FirstKeepProblem(d0, faults, fileId, revs);
    (n == |revs| ==> r == Ok(()) && forall i :: 0 <= i < |revs| ==> KeptForever(d.revisions, fileId, revs[i].id))
    && (n < |revs| ==> r == Err(RevisionFailure(UpdateRevisionProblem(d0, faults, fileId, revs[n].id).value)))
  }

  /**
   * Midway through the keep-forever loop: Drive `d` has the files and the
   * history lengths of `d0`, and the first `i` revisions are kept forever.
   */
  ghost predicate KeepLoop(d0: Drive, d: Drive, fileId: FileId, revs: seq<Revision>, i: nat) {
    d.files == d0.files && d.nextId == d0.nextId
    && (fileId in d.revisions <==> fileId in d0.revisions)
    && (fileId in d0.revisions ==> |d.revisions[fileId]| == |d0.revisions[fileId]|)
    && i <= |revs|
    && forall j :: 0 <= j < i ==> KeptForever(d.revisions, fileId, revs[j].id)
  }

  /**
   * One step of the loop: the next update fails on `d` exactly as it would
   * have on `d0`, and when it succeeds the loop state moves one revision on.
   */
  lemma KeepStep(d0: Drive, d: Drive, faults: Faults, fileId: FileId, revs: seq<Revision>, i: nat)
    requires KeepLoop(d0, d, fileId, revs, i) && i < |revs|
    ensures UpdateRevisionProblem(d, faults, fileId, revs[i].id) == UpdateRevisionProblem(d0, faults, fileId, revs[i].id)
    ensures UpdateRevisionProblem(d, faults, fileId, revs[i].id).None? ==>
              KeepLoop(d0, RevisionKept(d, fileId, revs[i].id, RevisionBody(Some(true))), fileId, revs, i + 1)
    ensures i <= FirstKeepProblem(d0, faults, fileId, revs) && UpdateRevisionProblem(d0, faults, fileId, revs[i].id).Some? ==>
              FirstKeepProblem(d0, faults, fileId, revs) == i && KeepMade(d0, faults, fileId, revs) == i + 1
  {
    if UpdateRevisionProblem(d, faults, fileId, revs[i].id).None? {
      RevisionKeptMonotone(d, fileId, revs[i].id, RevisionBody(Some(true)));
    }
  }

  /**
   * The Drive after keep-forever updates of `revs`, in order, on file
   * `fileId`. A revision the Drive does not hold is passed over, as its
   * update would fail. Only histories' revisions change, never their
   * number, and no file changes.
   */
  function KeptThrough(d: Drive, fileId: FileId, revs: seq<Revision>): (r: Drive)
    ensures r.files == d.files && r.nextId == d.nextId && r.revisions.Keys == d.revisions.Keys
    ensures forall f :: f in d.revisions ==> |r.revisions[f]| == |d.revisions[f]|
  {
    if revs == [] then d
    else
      var p := KeptThrough(d, fileId, revs[..|revs| - 1]);
      var k := revs[|revs| - 1].id;
      if fileId in p.revisions && k < |p.revisions[fileId]| then RevisionKept(p, fileId, k, RevisionBody(Some(true))) else p
  }

  /**
   * After the keep-forever updates of `revs`, a revision of file `fileId`
   * that some update names is the old one kept forever, and every other
   * revision is as it was.
   */
  lemma {:induction false} KeptThroughRevision(d: Drive, fileId: FileId, revs: seq<Revision>, f: FileId, k: nat)
    requires f in d.revisions && k < |d.revisions[f]|
    ensures KeptThrough(d, fileId, revs).revisions[f][k] ==
              if f == fileId && exists j :: 0 <= j < |revs| && revs[j].id == k
              then d.revisions[f][k].(keepForever := true) else d.revisions[f][k]
  {
    if revs != [] {
      var init := revs[..|revs| - 1];
      KeptThroughRevision(d, fileId, init, f, k);
      assert forall j :: 0 <= j < |init| ==> init[j] == revs[j];
      assert (exists j :: 0 <= j < |revs| && revs[j].id == k) <==>
             (exists j :: 0 <= j < |init| && init[j].id == k) || revs[|revs| - 1].id == k;
    }
  }

  /** One more keep-forever update, of a revision the Drive holds, extends the fold by that update. */
  lemma KeptThroughNext(d: Drive, fileId: FileId, revs: seq<Revision>, i: nat)
    requires i < |revs|
    requires fileId in KeptThrough(d, fileId, revs[..i]).revisions && revs[i].id < |KeptThrough(d, fileId, revs[..i]).revisions[fileId]|
    ensures KeptThrough(d, fileId, revs[..i + 1]) == RevisionKept(KeptThrough(d, fileId, revs[..i]), fileId, revs[i].id, RevisionBody(Some(true)))
  {
    assert revs[..i + 1][..i] == revs[..i];
  }

  /** Up to the first failing update, the fold is a state of the keep-forever loop. */
  lemma {:induction false} KeptThroughLoop(d0: Drive, faults: Faults, fileId: FileId, revs: seq<Revision>, i: nat)
    requires i <= FirstKeepProblem(d0, faults, fileId, revs)
    ensures KeepLoop(d0, KeptThrough(d0, fileId, revs[..i]), fileId, revs, i)
  {
    if i == 0 {
      assert revs[..0] == [];
    } else {
      KeptThroughLoop(d0, faults, fileId, revs, i - 1);
      var p := KeptThrough(d0, fileId, revs[..i - 1]);
      assert UpdateRevisionProblem(d0, faults, fileId, revs[i - 1].id).None?;
      KeepStep(d0, p, faults, fileId, revs, i - 1);
      KeptThroughNext(d0, fileId, revs, i - 1);
    }
  }

  /**
   * The next update of the keep-forever loop, on the Drive the earlier ones
   * left: it fails exactly as it would have at the start, and either
   * extends the fold by one kept revision or is the first failure.
   */
  lemma KeepAdvance(d0: Drive, faults: Faults, fileId: FileId, revs: seq<Revision>, i: nat)
    requires i <= FirstKeepProblem(d0, faults, fileId, revs) && i < |revs|
    ensures var d := KeptThrough(d0, fileId, revs[..i]);
            var problem := UpdateRevisionProblem(d0, faults, fileId, revs[i].id);
            && UpdateRevisionProblem(d, faults, fileId, revs[i].id) == problem
            && KeepForeverCalls(fileId, revs[..i + 1])
               == KeepForeverCalls(fileId, revs[..i]) + [UpdateRevisionCall(fileId, revs[i].id, RevisionBody(Some(true)))]
            && (problem.None? ==>
                  i < FirstKeepProblem(d0, faults, fileId, revs)
                  && fileId in d.revisions && revs[i].id < |d.revisions[fileId]|
                  && KeptThrough(d0, fileId, revs[..i + 1]) == RevisionKept(d, fileId, revs[i].id, RevisionBody(Some(true))))
            && (problem.Some? ==>
                  FirstKeepProblem(d0, faults, fileId, revs) == i && KeepMade(d0, faults, fileId, revs) == i + 1)
  {
    var d := KeptThrough(d0, fileId, revs[..i]);
    KeptThroughLoop(d0, faults, fileId, revs, i);
    KeepStep(d0, d, faults, fileId, revs, i);
    assert revs[..i + 1][..i] == revs[..i];
    if UpdateRevisionProblem(d0, faults, fileId, revs[i].id).None? {
      KeptThroughNext(d0, fileId, revs, i);
    }
  }

  /** With no update failing, every listed revision ends kept forever. */
  lemma KeepAllKept(d0: Drive, faults: Faults, fileId: FileId, revs: seq<Revision>)
    requires FirstKeepProblem(d0, faults, fileId, revs) == |revs|
    ensures forall j :: 0 <= j < |revs| ==> KeptForever(KeptThrough(d0, fileId, revs).revisions, fileId, revs[j].id)
  {
    KeptThroughLoop(d0, faults, fileId, revs, |revs|);
    assert revs[..|revs|] == revs;
  }

  /** A call log extended by the keep-forever calls ends with exactly those calls. */
  lemma KeepRunEnds(before: seq<Call>, fileId: FileId, revs: seq<Revision>)
    ensures var calls := before + KeepForeverCalls(fileId, revs);
            |calls| >= |revs| && calls[|calls| - |revs|..] == KeepForeverCalls(fileId, revs)
  {
    var cs := KeepForeverCalls(fileId, revs);
    assert |before + cs| - |revs| == |before|;
  }

  /**
   * The calls `list(ns)` makes: none for a cached listing; otherwise the
   * folder search unless cached, then, with a folder, the container search
   * unless cached, then, with a container, the one history listing.
   */
  ghost function ListCalls(cache: map<CacheKey, Cached>, d: Drive, faults: Faults, rootId: FileId, ns: string): (cs: seq<Call>)
    ensures forall c :: c in cs ==> c.ListFilesCall? || c.ListRevisionsCall?
    ensures Listed(cache, d, faults, rootId, ns).Ok? && !Lookup(cache, CacheKey(ForList, ns)).CachedRevisions? ==>
              cs != [] && cs[|cs| - 1].ListRevisionsCall?
  {
    if Lookup(cache, CacheKey(ForList, ns)).CachedRevisions? then []
    else
      SearchCalls(cache, CacheKey(ForDirectory, ns), DirectorySearch(rootId, ns))
      + match DirectoryLookup(cache, d, faults, rootId, ns)
        case Ok(Some(dir)) => ListInCalls(cache, d, faults, ns, dir)
        case _ => []
  }

  /** What `list(ns)` returns: the cached listing, or the lookups of `ListLookup`. */
  ghost function Listed(cache: map<CacheKey, Cached>, d: Drive, faults: Faults, rootId: FileId, ns: string): Result<seq<Revision>> {
    var cached := Lookup(cache, CacheKey(ForList, ns));
    if cached.CachedRevisions? then Ok(cached.revisions) else ListLookup(cache, d, faults, rootId, ns)
  }

  /** The console lines a message at `level` produces under `verbosity`. */
  function Emitted(verbosity: int, level: int, line: Line): seq<Line> {
    if verbosity >= level then [line] else []
  }

  class Versioner {
    const store: Store
    const rootId: FileId
    const host: Host
    var verbosity: int
    var ns: string
    var discriminator: string
    var mode: Mode
    var cache: map<CacheKey, Cached>
    ghost var lines: seq<Line>

    /** The cache only holds what the queries can have put there. */
    ghost predicate Valid()
      reads this`cache
    {
      CacheShaped(cache, rootId)
    }

    constructor(store: Store, rootId: FileId, host: Host)
      ensures this.store == store && this.rootId == rootId && this.host == host
      ensures verbosity == 2 && mode == VersionMode && ns == "" && discriminator == ""
      ensures cache == map[] && lines == []
      ensures Valid()
    {
      this.store := store;
      this.rootId := rootId;
      this.host := host;
      verbosity := 2;
      mode := VersionMode;
      ns := "";
      discriminator := "";
      cache := map[];
      lines := [];
    }

    method SetVerbosity(verbosity: int)
      modifies this`verbosity
      ensures this.verbosity == verbosity
    {
      this.verbosity := verbosity;
    }

    /** `output`: a line is written when the verbosity reaches the line's level. */
    method Output(text: LogText, level: int)
      modifies this`lines
      ensures lines == old(lines) + Emitted(verbosity, level, Line(mode, ns, discriminator, text))
    {
      if verbosity >= level {
        lines := lines + [Line(mode, ns, discriminator, text)];
      }
    }

    method Say(m: Message, detail: string)
      modifies this`lines
      ensures lines == old(lines) + Emitted(verbosity, 2, Line(mode, ns, discriminator, Says(m, detail)))
    {
      Output(Says(m, detail), 2);
    }

    /** `outputServiceParams`: the parameters at level 3, with the file's contents masked. */
    method OutputServiceParams(prefix: string, fields: PArray)
      modifies this`lines
      ensures lines == old(lines) + Emitted(verbosity, 3, Line(mode, ns, discriminator, Params(prefix, Redacted(fields))))
    {
      var rest, data := ArrayUtil.Pluck(fields, DATA, Null);
      if Truthy(data) {
        rest := Assign(rest, DATA, Str(REDACTED));
      }
      Output(Params(prefix, rest), 3);
    }

    /** `checkCache`: a truthy entry is a hit and is logged; anything else reads as null. */
    method CheckCache(key: CacheKey) returns (c: Cached)
      modifies this`lines
      ensures c == Lookup(cache, key)
      ensures lines == old(lines) + (if c != NullEntry then Emitted(verbosity, 2, Line(mode, ns, discriminator, Says(DebugCacheHit, KeyString(key)))) else [])
    {
      c := Lookup(cache, key);
      if c != NullEntry {
        Say(DebugCacheHit, KeyString(key));
      }
    }

    /** `filterCommonExceptions`: logs and raises the failure `Classify` names, if any. */
    method FilterCommonExceptions(e: GoogleException) returns (f: Option<Failure>)
      modifies this`lines
      ensures f == Classify(e)
      ensures lines == old(lines) + (if f.Some? && f.value.VersionerException? then Emitted(verbosity, 2, Line(mode, ns, discriminator, Says(f.value.message, ""))) else [])
    {
      f := Classify(e);
      if f.Some? && f.value.VersionerException? {
        Say(f.value.message, "");
      }
    }

    /**
     * `queryForDirectory`: a cached folder is returned with no call;
     * otherwise one search, whose result is cached unless it is a failure.
     */
    method QueryForDirectory() returns (r: Result<Option<DriveFile>>)
      requires Valid()
      modifies this`cache, this`lines, store`calls
      ensures Valid()
      ensures r == DirectoryLookup(old(cache), store.drive, store.faults, rootId, ns)
      ensures r.Ok? && r.value.Some? ==> Matches(r.value.value.meta, DirectorySearch(rootId, ns))
      ensures old(CachedFileAt(cache, CacheKey(ForDirectory, ns))) ==>
                store.calls == old(store.calls) && cache == old(cache)
      ensures !old(CachedFileAt(cache, CacheKey(ForDirectory, ns))) ==>
                store.calls == old(store.calls) + [ListFilesCall(DirectorySearch(rootId, ns))]
                && cache == if r.Ok? then old(cache)[CacheKey(ForDirectory, ns) := AsCached(r.value)] else old(cache)
      ensures cache == SearchCache(old(cache), CacheKey(ForDirectory, ns), r)
      ensures store.calls == old(store.calls) + SearchCalls(old(cache), CacheKey(ForDirectory, ns), DirectorySearch(rootId, ns))
    {
      var key := CacheKey(ForDirectory, ns);
      var cached := CheckCache(key);
      if cached != NullEntry {
        return Ok(Some(cached.file));
      }
      var o := store.ListFiles(DirectorySearch(rootId, ns));
      match o
      case Thrown(e) =>
        var f := FilterCommonExceptions(e);
        if f.Some? {
          return Err(f.value);
        }
        cache := cache[key := NullEntry];
        return Ok(None);
      case Done(files) =>
        if |files| > 1 {
          return Err(DuplicateDirectory(ns));
        }
        if files == {} {
          cache := cache[key := NullEntry];
          return Ok(None);
        }
        var f :| f in files;
        OnlyMember(files, f);
        cache := cache[key := CachedFile(f)];
        return Ok(Some(f));
    }

    /**
     * `queryForVersioned`: as `queryForDirectory`, searching the folder for
     * the file named `versioned`, with the cache entry keyed by namespace.
     */
    method QueryForVersioned(dir: DriveFile) returns (r: Result<Option<DriveFile>>)
      requires Valid()
      modifies this`cache, this`lines, store`calls
      ensures Valid()
      ensures r == VersionedLookup(old(cache), store.drive, store.faults, ns, dir)
      ensures r.Ok? && r.value.Some? ==>
                r.value.value.meta.name == VERSIONED_FILENAME
                && CachedFileAt(cache, CacheKey(ForVersioned, ns)) && cache[CacheKey(ForVersioned, ns)].file == r.value.value
      ensures old(CachedFileAt(cache, CacheKey(ForVersioned, ns))) ==>
                store.calls == old(store.calls) && cache == old(cache)
      ensures !old(CachedFileAt(cache, CacheKey(ForVersioned, ns))) ==>
                store.calls == old(store.calls) + [ListFilesCall(VersionedSearch(dir.id))]
                && cache == if r.Ok? then old(cache)[CacheKey(ForVersioned, ns) := AsCached(r.value)] else old(cache)
    {
      var key := CacheKey(ForVersioned, ns);
      var cached := CheckCache(key);
      if cached != NullEntry {
        return Ok(Some(cached.file));
      }
      var o := store.ListFiles(VersionedSearch(dir.id));
      match o
      case Thrown(e) =>
        var f := FilterCommonExceptions(e);
        if f.Some? {
          return Err(f.value);
        }
        cache := cache[key := NullEntry];
        return Ok(None);
      case Done(files) =>
        if |files| > 1 {
          return Err(DuplicateVersioned(dir.meta.name));
        }
        if files == {} {
          cache := cache[key := NullEntry];
          return Ok(None);
        }
        var f :| f in files;
        OnlyMember(files, f);
        cache := cache[key := CachedFile(f)];
        return Ok(Some(f));
    }

    /**
     * `queryForVersionList`: the container's history. A successful listing
     * returns before the cache write, so that key only ever holds null; a
     * swallowed exception caches null and then fails the typed return.
     */
    method QueryForVersionList(container: DriveFile) returns (r: Result<seq<Revision>>)
      requires Valid()
      modifies this`cache, this`lines, store`calls
      ensures Valid()
      ensures r == VersionListLookup(store.drive, store.faults, container.id)
      ensures store.calls == old(store.calls) + [ListRevisionsCall(container.id)]
      ensures cache == if r == Err(TypeError) then old(cache)[CacheKey(ForVersionList, ns) := NullEntry] else old(cache)
      ensures Lookup(cache, CacheKey(ForVersionList, ns)) == NullEntry
    {
      var key := CacheKey(ForVersionList, ns);
      var cached := CheckCache(key);
      assert cached == NullEntry;
      var o := store.ListRevisions(container.id);
      match o
      case Done(revisions) =>
        return Ok(revisions);
      case Thrown(e) =>
        var f := FilterCommonExceptions(e);
        if f.Some? {
          return Err(f.value);
        }
        cache := cache[key := NullEntry];
        return Err(TypeError);
    }

    /**
     * `createDirectory`: a folder named after the namespace under the root.
     * A 404 means the root is missing; other failures go through
     * `filterCommonExceptions` first.
     */
    method CreateDirectory() returns (r: Result<DriveFile>)
      modifies this`lines, store`calls, store`drive
      ensures store.calls == old(store.calls) + [CreateCall(DirBody(rootId, ns), None)]
      ensures old(CreateProblem(store.drive, store.faults, DirBody(rootId, ns))).None? ==>
                r == Ok(DriveFile(old(store.drive).nextId, NewMeta(DirBody(rootId, ns))))
                && store.drive == Created(old(store.drive), DirBody(rootId, ns))
      ensures old(CreateProblem(store.drive, store.faults, DirBody(rootId, ns))).Some? ==>
                r == Err(DirectoryFailure(old(CreateProblem(store.drive, store.faults, DirBody(rootId, ns))).value, rootId))
                && store.drive == old(store.drive)
    {
      var body := DirBody(rootId, ns);
      OutputServiceParams("CreateDirectory body fields", BodyFields(body));
      OutputServiceParams("CreateDirectory opts", []);
      var o := store.Create(body, None);
      match o
      case Done(f) =>
        return Ok(f);
      case Thrown(e) =>
        Say(DriveCannotCreateDir, "");
        if e.code == 404 {
          Say(DriveRootNotFound, "");
          return Err(VersionerException(DriveRootNotFound, NatToString(rootId), e.code, Some(e)));
        }
        var f := FilterCommonExceptions(e);
        if f.Some? {
          return Err(f.value);
        }
        return Err(VersionerException(DriveCannotCreateDir, e.message, e.code, Some(e)));
    }

    /** `createVersioned`: the container, created in the folder with the file's contents as its first revision. */
    method CreateVersioned(dir: DriveFile, fileLoc: string) returns (r: Result<DriveFile>)
      modifies this`lines, store`calls, store`drive
      ensures var body := VersionedBody(host, ns, discriminator, fileLoc, dir.id);
              store.calls == old(store.calls) + [CreateCall(body, Some(host.fileGetContents(fileLoc)))]
              && (old(CreateProblem(store.drive, store.faults, body)).None? ==>
                    r == Ok(DriveFile(old(store.drive).nextId, NewMeta(body)))
                    && store.drive == Created(old(store.drive), body))
              && (old(CreateProblem(store.drive, store.faults, body)).Some? ==>
                    r == Err(WriteFailure(old(CreateProblem(store.drive, store.faults, body)).value, DriveCannotCreateVersionedFile))
                    && store.drive == old(store.drive))
    {
      var body := VersionedBody(host, ns, discriminator, fileLoc, dir.id);
      var contents := host.fileGetContents(fileLoc);
      OutputServiceParams("CreateVersioned body fields", BodyFields(body));
      OutputServiceParams("CreateVersioned opts", DataOpts(contents));
      var o := store.Create(body, Some(contents));
      match o
      case Done(f) =>
        return Ok(f);
      case Thrown(e) =>
        var f := FilterCommonExceptions(e);
        if f.Some? {
          return Err(f.value);
        }
        Say(DriveCannotCreateVersionedFile, "");
        return Err(VersionerException(DriveCannotCreateVersionedFile, e.message, e.code, Some(e)));
    }

    /** `createUpdate`: the file's contents as a new revision of the container. */
    method CreateUpdate(container: DriveFile, dir: DriveFile, fileLoc: string) returns (r: Result<DriveFile>)
      modifies this`lines, store`calls, store`drive
      ensures var body := UpdateBody(host, ns, discriminator, fileLoc);
              store.calls == old(store.calls) + [UpdateCall(container.id, body, Some(host.fileGetContents(fileLoc)))]
              && (old(UpdateProblem(store.drive, store.faults, container.id, body)).None? ==>
                    container.id in old(store.drive).files
                    && r == Ok(DriveFile(container.id, UpdatedMeta(old(store.drive).files[container.id], body)))
                    && store.drive == Updated(old(store.drive), container.id, body))
              && (old(UpdateProblem(store.drive, store.faults, container.id, body)).Some? ==>
                    r == Err(WriteFailure(old(UpdateProblem(store.drive, store.faults, container.id, body)).value, DriveCannotUpdateVersionedFile))
                    && store.drive == old(store.drive))
    {
      var body := UpdateBody(host, ns, discriminator, fileLoc);
      var contents := host.fileGetContents(fileLoc);
      OutputServiceParams("CreateNewVersion body fields", BodyFields(body));
      OutputServiceParams("CreateNewVersion opts", DataOpts(contents));
      var o := store.Update(container.id, body, Some(contents));
      match o
      case Done(f) =>
        return Ok(f);
      case Thrown(e) =>
        var f := FilterCommonExceptions(e);
        if f.Some? {
          return Err(f.value);
        }
        Say(DriveCannotUpdateVersionedFile, "");
        return Err(VersionerException(DriveCannotUpdateVersionedFile, e.message, e.code, Some(e)));
    }

    /**
     * `version`: stores the file as a revision of its namespace's
     * container, creating the namespace folder and the container when
     * missing, and skipping the upload when a revision already carries the
     * file's base name. `lookups` are the calls made before the one write.
     */
    method Version(fileLoc: string, ns': string, disc: string)
      returns (r: Result<DriveFile>, ghost path: VersionPath, ghost lookups: seq<Call>)
      requires Valid()
      modifies this`ns, this`discriminator, this`mode, this`cache, this`lines, store`calls, store`drive
      ensures Valid()
      ensures ns == ns' && discriminator == disc && mode == VersionMode
      ensures var e := VersionOutcome(old(cache), old(store.drive), store.faults, host, rootId, ns', disc, fileLoc);
              r == e.result && path == e.path && store.drive == e.drive && cache == e.cache && store.calls == old(store.calls) + e.calls
      ensures path.Unreadable? <==> !host.isReadable(fileLoc)
      ensures r.Err? <==> path.Unreadable? || path.Failed?
      ensures path.Unreadable? ==>
                r == Err(VersionerException(VersionableFileNotReadable, "File not readable: " + fileLoc, 0, None))
                && lookups == [] && cache == old(cache) && store.drive == old(store.drive)
      ensures forall c :: c in lookups ==> Harmless(c, DirBody(rootId, ns'))
      ensures store.drive.nextId >= old(store.drive).nextId
      ensures path.Unreadable? || path.AlreadyVersioned? ==>
                store.calls == old(store.calls) + lookups && store.drive.revisions == old(store.drive).revisions
      ensures path.AlreadyVersioned? || path.NewRevision? ==>
                r == Ok(path.container) && path.container.meta.name == VERSIONED_FILENAME
                && path.container.id in old(store.drive).revisions && path.history == old(store.drive).revisions[path.container.id]
      ensures path.AlreadyVersioned? ==>
                exists i :: 0 <= i < |path.history| && path.history[i].originalFilename == Some(Basename(fileLoc))
      ensures path.NewRevision? ==>
                (forall i :: 0 <= i < |path.history| ==> path.history[i].originalFilename != Some(Basename(fileLoc)))
                && store.calls == old(store.calls) + lookups
                                  + [UpdateCall(path.container.id, UpdateBody(host, ns', disc, fileLoc), Some(host.fileGetContents(fileLoc)))]
                && store.drive.revisions == old(store.drive).revisions[path.container.id :=
                                              Appended(path.history, UpdateBody(host, ns', disc, fileLoc))]
      ensures path.NewContainer? ==>
                Matches(path.dir.meta, DirectorySearch(rootId, ns'))
                && store.calls == old(store.calls) + lookups
                                  + [CreateCall(VersionedBody(host, ns', disc, fileLoc, path.dir.id), Some(host.fileGetContents(fileLoc)))]
                && r.Ok? && old(store.drive).nextId <= r.value.id
                && r.value.meta == NewMeta(VersionedBody(host, ns', disc, fileLoc, path.dir.id))
                && r.value.id in store.drive.files && store.drive.files[r.value.id] == r.value.meta
    {
      ns := ns';
      discriminator := disc;
      mode := VersionMode;
      ghost var e := VersionOutcome(cache, store.drive, store.faults, host, rootId, ns, disc, fileLoc);
      VersionEnds(cache, store.drive, store.faults, host, rootId, ns, disc, fileLoc, store.calls);
      lookups := Reads(e.calls);
      if !host.isReadable(fileLoc) {
        Say(VersionableFileNotReadable, "");
        return Err(VersionerException(VersionableFileNotReadable, "File not readable: " + fileLoc, 0, None)), Unreadable, lookups;
      }

      var dir;
      ghost var pre;
      dir, pre := NamespaceDirectory();
      if dir.Err? {
        return Err(dir.error), Failed, lookups;
      }
      ghost var rest := VersionInOutcome(cache, store.drive, store.faults, host, ns, disc, fileLoc, dir.value);
      ghost var more;
      r, path, more := VersionIn(dir.value, fileLoc);
      AppendAssoc(old(store.calls), pre, rest.calls);
    }

    /**
     * The first half of `version`: the namespace folder, found by
     * `queryForDirectory` or else created by `createDirectory`. `lookups`
     * are the calls made.
     */
    method NamespaceDirectory() returns (r: Result<DriveFile>, ghost lookups: seq<Call>)
      requires Valid()
      modifies this`cache, this`lines, store`calls, store`drive
      ensures Valid()
      ensures store.calls == old(store.calls) + lookups
      ensures forall c :: c in lookups ==> Harmless(c, DirBody(rootId, ns))
      ensures store.drive.revisions == old(store.drive).revisions && store.drive.nextId >= old(store.drive).nextId
      ensures Lookup(cache, CacheKey(ForVersioned, ns)) == old(Lookup(cache, CacheKey(ForVersioned, ns)))
      ensures var n := DirectoryOutcome(old(cache), old(store.drive), store.faults, rootId, ns);
              r == n.result && store.drive == n.drive && cache == n.cache && lookups == n.calls
      ensures r.Ok? ==> Matches(r.value.meta, DirectorySearch(rootId, ns))
      ensures old(DirectoryLookup(cache, store.drive, store.faults, rootId, ns)).Err? ==>
                r == Err(old(DirectoryLookup(cache, store.drive, store.faults, rootId, ns)).error) && store.drive == old(store.drive)
      ensures old(DirectoryLookup(cache, store.drive, store.faults, rootId, ns)).Ok? ==>
                match old(DirectoryLookup(cache, store.drive, store.faults, rootId, ns)).value
                case Some(found) => r == Ok(found) && store.drive == old(store.drive) && CreateCall(DirBody(rootId, ns), None) !in lookups
                case None =>
                  lookups != [] && lookups[|lookups| - 1] == CreateCall(DirBody(rootId, ns), None)
                  && (old(CreateProblem(store.drive, store.faults, DirBody(rootId, ns))).None? ==>
                        r == Ok(DriveFile(old(store.drive).nextId, NewMeta(DirBody(rootId, ns))))
                        && store.drive == Created(old(store.drive), DirBody(rootId, ns)))
                  && (old(CreateProblem(store.drive, store.faults, DirBody(rootId, ns))).Some? ==>
                        r == Err(DirectoryFailure(old(CreateProblem(store.drive, store.faults, DirBody(rootId, ns))).value, rootId))
                        && store.drive == old(store.drive))
    {
      lookups := [];
      ghost var hit := CachedFileAt(cache, CacheKey(ForDirectory, ns));
      var found := QueryForDirectory();
      if !hit {
        lookups := lookups + [ListFilesCall(DirectorySearch(rootId, ns))];
      }
      if found.Err? {
        return Err(found.error), lookups;
      }
      if found.value.Some? {
        Say(DebugNsDirFound, "");
        return Ok(found.value.value), lookups;
      }
      var created := CreateDirectory();
      lookups := lookups + [CreateCall(DirBody(rootId, ns), None)];
      if created.Err? {
        return Err(created.error), lookups;
      }
      Say(DebugNsDirCreated, "");
      return created, lookups;
    }

    /**
     * The second half of `version`, once the namespace folder `dir` is
     * known: the container is looked up in it and created, updated or left
     * alone. `lookups` are the calls made before the one write.
     */
    method VersionIn(dir: DriveFile, fileLoc: string)
      returns (r: Result<DriveFile>, ghost path: VersionPath, ghost lookups: seq<Call>)
      requires Valid()
      modifies this`cache, this`lines, store`calls, store`drive
      ensures Valid()
      ensures var e := VersionInOutcome(old(cache), old(store.drive), store.faults, host, ns, discriminator, fileLoc, dir);
              r == e.result && path == e.path && store.drive == e.drive && cache == e.cache && store.calls == old(store.calls) + e.calls
      ensures !path.Unreadable? && (r.Err? <==> path.Failed?)
      ensures forall c :: c in lookups ==> c.ListFilesCall? || c.ListRevisionsCall?
      ensures store.drive.nextId >= old(store.drive).nextId
      ensures path.AlreadyVersioned? ==>
                store.calls == old(store.calls) + lookups && store.drive.revisions == old(store.drive).revisions
      ensures path.AlreadyVersioned? || path.NewRevision? ==>
                r == Ok(path.container) && path.container.meta.name == VERSIONED_FILENAME
                && path.container.id in old(store.drive).revisions && path.history == old(store.drive).revisions[path.container.id]
      ensures path.AlreadyVersioned? ==>
                exists i :: 0 <= i < |path.history| && path.history[i].originalFilename == Some(Basename(fileLoc))
      ensures path.NewRevision? ==>
                (forall i :: 0 <= i < |path.history| ==> path.history[i].originalFilename != Some(Basename(fileLoc)))
                && store.calls == old(store.calls) + lookups
                                  + [UpdateCall(path.container.id, UpdateBody(host, ns, discriminator, fileLoc), Some(host.fileGetContents(fileLoc)))]
                && store.drive.revisions == old(store.drive).revisions[path.container.id :=
                                              Appended(path.history, UpdateBody(host, ns, discriminator, fileLoc))]
      ensures path.NewContainer? ==>
                path.dir == dir
                && store.calls == old(store.calls) + lookups
                                  + [CreateCall(VersionedBody(host, ns, discriminator, fileLoc, dir.id), Some(host.fileGetContents(fileLoc)))]
                && r.Ok? && old(store.drive).nextId <= r.value.id
                && r.value.meta == NewMeta(VersionedBody(host, ns, discriminator, fileLoc, dir.id))
                && r.value.id in store.drive.files && store.drive.files[r.value.id] == r.value.meta
    {
      ghost var e := VersionInOutcome(cache, store.drive, store.faults, host, ns, discriminator, fileLoc, dir);
      ghost var found := VersionedLookup(cache, store.drive, store.faults, ns, dir);
      if found.Ok? && found.value.Some? {
        VersionedLookupNamed(cache, store.drive, store.faults, rootId, ns, dir);
      }
      VersionInEnds(cache, store.drive, store.faults, host, ns, discriminator, fileLoc, dir, found, store.calls);
      lookups := Reads(e.calls);
      ghost var search := SearchCalls(cache, CacheKey(ForVersioned, ns), VersionedSearch(dir.id));
      var versioned := QueryForVersioned(dir);
      if versioned.Err? {
        return Err(versioned.error), Failed, lookups;
      }
      ghost var rest := ContainerFound(cache, store.drive, store.faults, host, ns, discriminator, fileLoc, dir, versioned.value);
      r, path := VersionFound(dir, fileLoc, versioned.value);
      AppendAssoc(old(store.calls), search, rest.calls);
    }

    /**
     * The rest of `version` once the container query in `dir` has returned
     * normally: the container `found` is updated, or, when there is none,
     * created.
     */
    method VersionFound(dir: DriveFile, fileLoc: string, found: Option<DriveFile>)
      returns (r: Result<DriveFile>, ghost path: VersionPath)
      requires Valid()
      modifies this`cache, this`lines, store`calls, store`drive
      ensures Valid()
      ensures var e := ContainerFound(old(cache), old(store.drive), store.faults, host, ns, discriminator, fileLoc, dir, found);
              r == e.result && path == e.path && store.drive == e.drive && cache == e.cache && store.calls == old(store.calls) + e.calls
    {
      if found.None? {
        var made := CreateVersioned(dir, fileLoc);
        if made.Err? {
          return Err(made.error), Failed;
        }
        Say(DebugVersionedFileCreated, "");
        return made, NewContainer(dir);
      }
      Say(DebugVersionedFileFound, "");
      ghost var listed;
      r, path, listed := VersionContainer(found.value, dir, fileLoc);
    }

    /**
     * The end of `version` once the container is known: its history is
     * listed, and the file is uploaded as a new revision unless a revision
     * already carries its base name. The container found is returned either
     * way, not the update's result.
     */
    method VersionContainer(container: DriveFile, dir: DriveFile, fileLoc: string)
      returns (r: Result<DriveFile>, ghost path: VersionPath, ghost lookups: seq<Call>)
      requires Valid()
      modifies this`cache, this`lines, store`calls, store`drive
      ensures Valid()
      ensures lookups == [ListRevisionsCall(container.id)]
      ensures var e := ContainerOutcome(old(cache), old(store.drive), store.faults, host, ns, discriminator, fileLoc, container);
              r == e.result && path == e.path && store.drive == e.drive && cache == e.cache && store.calls == old(store.calls) + e.calls
      ensures path.Failed? || path.AlreadyVersioned? || path.NewRevision?
      ensures r.Err? <==> path.Failed?
      ensures store.drive.nextId == old(store.drive).nextId
      ensures path.AlreadyVersioned? ==> store.calls == old(store.calls) + lookups && store.drive == old(store.drive)
      ensures path.AlreadyVersioned? || path.NewRevision? ==>
                r == Ok(container) && path.container == container
                && container.id in old(store.drive).revisions && path.history == old(store.drive).revisions[container.id]
      ensures path.AlreadyVersioned? ==>
                exists i :: 0 <= i < |path.history| && path.history[i].originalFilename == Some(Basename(fileLoc))
      ensures path.NewRevision? ==>
                (forall i :: 0 <= i < |path.history| ==> path.history[i].originalFilename != Some(Basename(fileLoc)))
                && store.calls == old(store.calls) + lookups
                                  + [UpdateCall(container.id, UpdateBody(host, ns, discriminator, fileLoc), Some(host.fileGetContents(fileLoc)))]
                && store.drive.revisions == old(store.drive).revisions[container.id :=
                                              Appended(path.history, UpdateBody(host, ns, discriminator, fileLoc))]
    {
      lookups := [ListRevisionsCall(container.id)];
      var filename := Basename(fileLoc);
      var history := QueryForVersionList(container);
      if history.Err? {
        return Err(history.error), Failed, lookups;
      }
      if exists i :: 0 <= i < |history.value| && history.value[i].originalFilename == Some(filename) {
        Say(DebugVersionFileAlreadyExists, "");
        return Ok(container), AlreadyVersioned(container, history.value), lookups;
      }
      var updated := CreateUpdate(container, dir, fileLoc);
      if updated.Err? {
        return Err(updated.error), Failed, lookups;
      }
      Say(DebugNewVersionCreated, "");
      return Ok(container), NewRevision(container, history.value), lookups;
    }

    /**
     * `list`: the revisions of a namespace's container. A cached listing is
     * returned with no call; otherwise the folder, the container and the
     * history are looked up, and the history is cached. Drive's contents
     * are not changed.
     */
    method List(ns': string) returns (r: Result<seq<Revision>>)
      requires Valid()
      modifies this`ns, this`discriminator, this`mode, this`cache, this`lines, store`calls
      ensures Valid()
      ensures ns == ns' && discriminator == "" && mode == RevisionsMode
      ensures Lookup(old(cache), CacheKey(ForList, ns')).CachedRevisions? ==>
                r == Ok(Lookup(old(cache), CacheKey(ForList, ns')).revisions)
                && store.calls == old(store.calls) && cache == old(cache)
      ensures r == Listed(old(cache), store.drive, store.faults, rootId, ns')
      ensures store.calls == old(store.calls) + ListCalls(old(cache), store.drive, store.faults, rootId, ns')
      ensures cache == ListCache(old(cache), store.drive, store.faults, rootId, ns')
      ensures r.Ok? ==>
                Lookup(cache, CacheKey(ForList, ns')) == CachedRevisions(r.value)
                && CachedFileAt(cache, CacheKey(ForVersioned, ns'))
    {
      ns := ns';
      discriminator := "";
      mode := RevisionsMode;
      var key := CacheKey(ForList, ns);
      var cached := CheckCache(key);
      if cached != NullEntry {
        return Ok(cached.revisions);
      }
      r := ListUncached();
    }

    /**
     * The part of `list` past a cache miss for the listing: the folder is
     * looked up, and, when there is one, the rest is `ListIn`.
     */
    method ListUncached() returns (r: Result<seq<Revision>>)
      requires Valid() && !Lookup(cache, CacheKey(ForList, ns)).CachedRevisions?
      modifies this`cache, this`lines, store`calls
      ensures Valid()
      ensures r == Listed(old(cache), store.drive, store.faults, rootId, ns)
      ensures store.calls == old(store.calls) + ListCalls(old(cache), store.drive, store.faults, rootId, ns)
      ensures cache == ListCache(old(cache), store.drive, store.faults, rootId, ns)
      ensures r.Ok? ==> CachedFileAt(cache, CacheKey(ForVersioned, ns))
    {
      var found := QueryForDirectory();
      if found.Err? || found.value.None? {
        ListWithoutFolder(old(cache), store.drive, store.faults, rootId, ns);
        if found.Err? {
          return Err(found.error);
        }
        Say(DriveCannotListVersionedFile, "");
        return Err(CannotList);
      }
      var dir := found.value.value;
      Say(DebugNsDirFound, "");
      ListFromFolder(old(cache), store.drive, store.faults, rootId, ns, dir);
      r := ListIn(dir);
    }

    /**
     * The second half of `list`, once the namespace folder `dir` is known:
     * the container is looked up in it, its history listed, and the
     * listing cached.
     */
    method ListIn(dir: DriveFile) returns (r: Result<seq<Revision>>)
      requires Valid()
      modifies this`cache, this`lines, store`calls
      ensures Valid()
      ensures r == ListedIn(old(cache), store.drive, store.faults, ns, dir)
      ensures store.calls == old(store.calls) + ListInCalls(old(cache), store.drive, store.faults, ns, dir)
      ensures cache == ListInCache(old(cache), store.drive, store.faults, ns, dir)
      ensures r.Ok? ==>
                Lookup(cache, CacheKey(ForList, ns)) == CachedRevisions(r.value)
                && CachedFileAt(cache, CacheKey(ForVersioned, ns))
    {
      var versioned := QueryForVersioned(dir);
      if versioned.Err? {
        return Err(versioned.error);
      }
      if versioned.value.None? {
        Say(DriveCannotListVersionedFile, "");
        return Err(CannotList);
      }
      var container := versioned.value.value;
      Say(DebugVersionedFileFound, "");
      Say(DebugListingVersionsForVersioned, NatToString(container.id));
      var history := QueryForVersionList(container);
      if history.Err? {
        return Err(history.error);
      }
      CacheListing(cache, rootId, ns, history.value);
      cache := cache[CacheKey(ForList, ns) := CachedRevisions(history.value)];
      return Ok(history.value);
    }

    /**
     * `updateAllRevisions`: marks every listed revision of a namespace's
     * container to be kept forever, one `revisions->update` call each, in
     * order, using the container the listing left in the cache.
     */
    method UpdateAllRevisions(ns': string) returns (r: Result<()>, ghost listed: seq<Revision>)
      requires Valid()
      modifies this`ns, this`discriminator, this`mode, this`cache, this`lines, store`calls, store`drive
      ensures Valid()
      ensures ns == ns' && discriminator == "" && mode == RevisionsMode
      ensures cache == ListCache(old(cache), old(store.drive), store.faults, rootId, ns')
      ensures store.drive.files == old(store.drive).files && store.drive.nextId == old(store.drive).nextId
      ensures var all := Listed(old(cache), old(store.drive), store.faults, rootId, ns');
              (all.Err? ==> r == Err(all.error) && listed == [] && store.drive == old(store.drive))
              && (all.Ok? ==> listed == all.value && Lookup(cache, CacheKey(ForList, ns')) == CachedRevisions(listed))
              && (all == Ok([]) ==> r == Ok(()))
      ensures listed != [] ==>
                CachedFileAt(cache, CacheKey(ForVersioned, ns'))
                && var id := cache[CacheKey(ForVersioned, ns')].file.id;
                   var made := KeepMade(old(store.drive), store.faults, id, listed);
                   |store.calls| >= made && store.calls[|store.calls| - made..] == KeepForeverCalls(id, listed[..made])
                   && KeepEnded(old(store.drive), store.faults, id, listed, store.drive, r)
      ensures listed == [] ==>
                store.drive == old(store.drive)
                && store.calls == old(store.calls) + ListCalls(old(cache), old(store.drive), store.faults, rootId, ns')
      ensures listed != [] ==>
                CachedFileAt(cache, CacheKey(ForVersioned, ns'))
                && var id := cache[CacheKey(ForVersioned, ns')].file.id;
                   store.drive == KeptThrough(old(store.drive), id, listed[..FirstKeepProblem(old(store.drive), store.faults, id, listed)])
                   && store.calls == old(store.calls) + ListCalls(old(cache), old(store.drive), store.faults, rootId, ns')
                                     + KeepForeverCalls(id, listed[..KeepMade(old(store.drive), store.faults, id, listed)])
    {
      ns := ns';
      discriminator := "";
      mode := RevisionsMode;
      var all := List(ns);
      if all.Err? {
        return Err(all.error), [];
      }
      var revisions := all.value;
      listed := revisions;
      if |revisions| == 0 {
        return Ok(()), listed;
      }
      var versioned := cache[CacheKey(ForVersioned, ns)].file;
      ghost var before, made := store.calls, KeepMade(store.drive, store.faults, versioned.id, revisions);
      r := KeepAllForever(versioned, revisions);
      KeepRunEnds(before, versioned.id, revisions[..made]);
    }

    /**
     * The loop of `updateAllRevisions`: one `revisions->update` per listed
     * revision, in order, stopping at the first failure. The updates do not
     * change which of them fail, so the first failing position of the
     * Drive at the start decides how far the loop gets.
     */
    method KeepAllForever(versioned: DriveFile, revisions: seq<Revision>) returns (r: Result<()>)
      modifies this`lines, store`calls, store`drive
      ensures store.drive.files == old(store.drive).files && store.drive.nextId == old(store.drive).nextId
      ensures store.calls == old(store.calls)
                             + KeepForeverCalls(versioned.id, revisions[..KeepMade(old(store.drive), store.faults, versioned.id, revisions)])
      ensures KeepEnded(old(store.drive), store.faults, versioned.id, revisions, store.drive, r)
      ensures store.drive == KeptThrough(old(store.drive), versioned.id,
                                         revisions[..FirstKeepProblem(old(store.drive), store.faults, versioned.id, revisions)])
    {
      ghost var n := FirstKeepProblem(store.drive, store.faults, versioned.id, revisions);
      var i := 0;
      while i < |revisions|
        invariant i <= n
        invariant store.drive == KeptThrough(old(store.drive), versioned.id, revisions[..i])
        invariant store.calls == old(store.calls) + KeepForeverCalls(versioned.id, revisions[..i])
      {
        KeepAdvance(old(store.drive), store.faults, versioned.id, revisions, i);
        var u := UpdateRevision(versioned, revisions[i]);
        if u.Err? {
          return Err(u.error);
        }
        i := i + 1;
      }
      assert revisions[..i] == revisions;
      KeepAllKept(old(store.drive), store.faults, versioned.id, revisions);
      return Ok(());
    }

    /** `updateRevision`: asks Drive to keep one revision forever; a swallowed exception fails the typed return. */
    method UpdateRevision(versioned: DriveFile, revision: Revision) returns (r: Result<Revision>)
      modifies this`lines, store`calls, store`drive
      ensures store.calls == old(store.calls) + [UpdateRevisionCall(versioned.id, revision.id, RevisionBody(Some(true)))]
      ensures old(UpdateRevisionProblem(store.drive, store.faults, versioned.id, revision.id)).None? ==>
                versioned.id in old(store.drive).revisions && revision.id < |old(store.drive).revisions[versioned.id]|
                && r == Ok(old(store.drive).revisions[versioned.id][revision.id].(keepForever := true))
                && store.drive == RevisionKept(old(store.drive), versioned.id, revision.id, RevisionBody(Some(true)))
      ensures old(UpdateRevisionProblem(store.drive, store.faults, versioned.id, revision.id)).Some? ==>
                var e := old(UpdateRevisionProblem(store.drive, store.faults, versioned.id, revision.id)).value;
                r == Err(RevisionFailure(e))
                && store.drive == old(store.drive)
    {
      Say(DebugUpdatingRevision, NatToString(revision.id));
      var o := store.UpdateRevision(versioned.id, revision.id, RevisionBody(Some(true)));
      match o
      case Done(kept) =>
        return Ok(kept);
      case Thrown(e) =>
        var f := FilterCommonExceptions(e);
        if f.Some? {
          return Err(f.value);
        }
        return Err(TypeError);
    }
  }
}
