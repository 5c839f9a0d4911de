/**
 * The part of Google Drive the versioner talks to: files with parents and
 * metadata, the revisions of each file, and the five calls the versioner
 * makes (`files->listFiles`, `files->create`, `files->update`,
 * `revisions->listRevisions`, `revisions->update`).
 *
 * The store's contents are one `Drive` value and each call's effect is a
 * function on it. Every call is first appended to the ghost call log
 * `calls`, so that a caller's contract can say which calls it made. A call
 * fails with the exception configured for its operation in `faults`, if
 * any; otherwise it fails only where Drive itself refuses (a missing file
 * or parent, a parent that is not a folder, a `parents` field on an
 * update).
 */
module DriveStore {
  import opened Php

  type FileId = nat

  const MIME_DIR := "application/vnd.google-apps.folder"

  datatype FileMeta = FileMeta(
    name: string,
    parents: seq<FileId>,
    mimeType: string,
    trashed: bool,
    originalFilename: Option<string>,
    properties: map<string, string>)

  /** A `Google_Service_Drive_DriveFile` as the API hands it back. */
  datatype DriveFile = DriveFile(id: FileId, meta: FileMeta)

  /** A `Google_Service_Drive_Revision`; a revision's id is its position in the file's history. */
  datatype Revision = Revision(id: nat, originalFilename: Option<string>, keepForever: bool)

  /** The metadata fields a create or update request carries. */
  datatype FileBody = FileBody(
    mimeType: string,
    name: string,
    parents: Option<seq<FileId>>,
    originalFilename: Option<string>,
    properties: map<string, string>,
    keepRevisionForever: bool,
    uploadType: Option<string>)

  datatype RevisionBody = RevisionBody(keepForever: Option<bool>)

  /** A `q` search: `'<parent>' in parents and name = '<name>'`, optionally with a MIME type and `trashed = false`. */
  datatype Query = Query(parent: FileId, name: string, mimeType: Option<string>, excludeTrashed: bool)

  /** `Google_Service_Exception` (with the reasons of its error list) and a plain `Google_Exception`. */
  datatype GoogleException =
    | ServiceException(code: int, reasons: seq<string>, message: string)
    | ClientException(code: int, message: string)

  datatype Outcome<T> = Done(value: T) | Thrown(error: GoogleException)

  datatype Op = ListFilesOp | CreateOp | UpdateOp | ListRevisionsOp | UpdateRevisionOp

  /** The exception each operation is configured to throw, if any. */
  type Faults = map<Op, GoogleException>

  datatype Call =
    | ListFilesCall(q: Query)
    | CreateCall(body: FileBody, data: Option<string>)
    | UpdateCall(id: FileId, body: FileBody, data: Option<string>)
    | ListRevisionsCall(fileId: FileId)
    | UpdateRevisionCall(fileId: FileId, revisionId: nat, revisionBody: RevisionBody)

  /** The contents of a Drive: each file's metadata, each file's history, and the id the next file gets. */
  datatype Drive = Drive(files: map<FileId, FileMeta>, revisions: map<FileId, seq<Revision>>, nextId: FileId)

  /** A history whose revision ids are their positions. */
  ghost predicate Numbered(history: seq<Revision>) {
    forall i :: 0 <= i < |history| ==> history[i].id == i
  }

  /** Ids are below the next fresh id, only existing files have histories, and every history is numbered. */
  ghost predicate WellFormed(d: Drive) {
    (forall id :: id in d.files ==> id < d.nextId)
    && (forall id :: id in d.revisions ==> id in d.files && Numbered(d.revisions[id]))
  }

  predicate Matches(m: FileMeta, q: Query) {
    q.parent in m.parents
    && m.name == q.name
    && (q.mimeType.None? || m.mimeType == q.mimeType.value)
    && (!q.excludeTrashed || !m.trashed)
  }

  const NotFound := ServiceException(404, ["notFound"], "File not found")
  const ParentNotAFolder := ServiceException(400, ["parentNotAFolder"], "The specified parent is not a folder")
  const ParentsNotWritable := ServiceException(403, ["fieldNotWritable"], "The parents field is not directly writable in update requests")

  /** The metadata a newly created file gets from a request body. */
  function NewMeta(body: FileBody): FileMeta {
    FileMeta(body.name, if body.parents.Some? then body.parents.value else [], body.mimeType, false,
             body.originalFilename, body.properties)
  }

  /** An update overwrites the fields it carries and merges its properties into the file's. */
  function UpdatedMeta(m: FileMeta, body: FileBody): FileMeta {
    m.(name := body.name, mimeType := body.mimeType, originalFilename := body.originalFilename,
       properties := m.properties + body.properties)
  }

  /** The files a search finds. */
  function Matching(d: Drive, q: Query): set<DriveFile> {
    set id | id in d.files && Matches(d.files[id], q) :: DriveFile(id, d.files[id])
  }

  /** What a search returns: the configured fault, or the matching files. */
  function ListOutcome(d: Drive, faults: Faults, q: Query): Outcome<set<DriveFile>> {
    if ListFilesOp in faults then Thrown(faults[ListFilesOp]) else Done(Matching(d, q))
  }

  /** Why Drive refuses to create a file under these parents, if it does. */
  function ParentProblem(d: Drive, parents: seq<FileId>): Option<GoogleException> {
    if exists i :: 0 <= i < |parents| && parents[i] !in d.files then Some(NotFound)
    else if exists i :: 0 <= i < |parents| && d.files[parents[i]].mimeType != MIME_DIR then Some(ParentNotAFolder)
    else None
  }

  /** Why a create request fails, if it does. */
  function CreateProblem(d: Drive, faults: Faults, body: FileBody): Option<GoogleException> {
    if CreateOp in faults then Some(faults[CreateOp])
    else ParentProblem(d, if body.parents.Some? then body.parents.value else [])
  }

  /** Why an update request fails, if it does. */
  function UpdateProblem(d: Drive, faults: Faults, id: FileId, body: FileBody): Option<GoogleException> {
    if UpdateOp in faults then Some(faults[UpdateOp])
    else if id !in d.files then Some(NotFound)
    else if body.parents.Some? then Some(ParentsNotWritable)
    else None
  }

  /** Why a revision listing fails, if it does; folders have no revisions. */
  function ListRevisionsProblem(d: Drive, faults: Faults, id: FileId): Option<GoogleException> {
    if ListRevisionsOp in faults then Some(faults[ListRevisionsOp])
    else if id !in d.revisions then Some(NotFound)
    else None
  }

  /** Why a revision update fails, if it does. */
  function UpdateRevisionProblem(d: Drive, faults: Faults, fileId: FileId, revisionId: nat): Option<GoogleException> {
    if UpdateRevisionOp in faults then Some(faults[UpdateRevisionOp])
    else if fileId !in d.revisions || revisionId >= |d.revisions[fileId]| then Some(NotFound)
    else None
  }

  /** A history with one more revision, carrying the body's file name and keep-forever flag. */
  function Appended(history: seq<Revision>, body: FileBody): seq<Revision> {
    history + [Revision(|history|, body.originalFilename, body.keepRevisionForever)]
  }

  /** The Drive after a create: the next id holds the file, which starts a history unless it is a folder. */
  function Created(d: Drive, body: FileBody): Drive {
    Drive(d.files[d.nextId := NewMeta(body)],
          if body.mimeType == MIME_DIR then d.revisions else d.revisions[d.nextId := Appended([], body)],
          d.nextId + 1)
  }

  /** The Drive after an update of an existing file: new metadata and one more revision. */
  function Updated(d: Drive, id: FileId, body: FileBody): Drive
    requires id in d.files
  {
    var history := if id in d.revisions then d.revisions[id] else [];
    d.(files := d.files[id := UpdatedMeta(d.files[id], body)], revisions := d.revisions[id := Appended(history, body)])
  }

  /** One revision with the fields a revision body carries set. */
  function RevisionUpdated(r: Revision, body: RevisionBody): Revision {
    if body.keepForever.Some? then r.(keepForever := body.keepForever.value) else r
  }

  /** The Drive after a revision update. */
  function RevisionKept(d: Drive, fileId: FileId, revisionId: nat, body: RevisionBody): Drive
    requires fileId in d.revisions && revisionId < |d.revisions[fileId]|
  {
    var history := d.revisions[fileId];
    d.(revisions := d.revisions[fileId := history[revisionId := RevisionUpdated(history[revisionId], body)]])
  }

  /**
   * A create takes an id no file has, changes no existing file or history,
   * and keeps the Drive well formed.
   */
  lemma CreatedFresh(d: Drive, body: FileBody)
    requires WellFormed(d)
    ensures d.nextId !in d.files && d.nextId !in d.revisions
    ensures WellFormed(Created(d, body))
    ensures forall id :: id in d.files ==> id in Created(d, body).files && Created(d, body).files[id] == d.files[id]
    ensures forall id :: id in d.revisions ==> id in Created(d, body).revisions && Created(d, body).revisions[id] == d.revisions[id]
  {
    var d' := Created(d, body);
    forall id | id in d'.revisions
      ensures id in d'.files && Numbered(d'.revisions[id])
    {
      if id != d.nextId {
        assert id in d.revisions;
      }
    }
  }

  /** A search after a create finds what it found before, plus the new file if that fits. */
  lemma CreatedMatching(d: Drive, body: FileBody, q: Query)
    requires WellFormed(d)
    ensures Matching(Created(d, body), q)
            == Matching(d, q) + (if Matches(NewMeta(body), q) then {DriveFile(d.nextId, NewMeta(body))} else {})
  {
    var d' := Created(d, body);
    var extra := if Matches(NewMeta(body), q) then {DriveFile(d.nextId, NewMeta(body))} else {};
    forall f | f in Matching(d', q)
      ensures f in Matching(d, q) + extra
    {
      if f.id != d.nextId {
        assert DriveFile(f.id, d.files[f.id]) in Matching(d, q);
      }
    }
    forall f | f in Matching(d, q) + extra
      ensures f in Matching(d', q)
    {
      if f in Matching(d, q) {
        assert f.id in d.files && f.id != d.nextId;
        assert DriveFile(f.id, d'.files[f.id]) in Matching(d', q);
      } else {
        assert DriveFile(d.nextId, d'.files[d.nextId]) in Matching(d', q);
      }
    }
  }

  /**
   * After a search finds nothing, creating a file that fits the search
   * makes the same search find exactly that file.
   */
  lemma CreatedIsOnlyMatch(d: Drive, body: FileBody, q: Query)
    requires WellFormed(d) && Matching(d, q) == {} && Matches(NewMeta(body), q)
    ensures Matching(Created(d, body), q) == {DriveFile(d.nextId, NewMeta(body))}
  {
    CreatedMatching(d, body, q);
  }

  /** An update appends exactly one revision, numbered by its position, and keeps the Drive well formed. */
  lemma UpdatedAppends(d: Drive, id: FileId, body: FileBody)
    requires WellFormed(d) && id in d.files
    ensures WellFormed(Updated(d, id, body))
    ensures var before := if id in d.revisions then d.revisions[id] else [];
            var after := Updated(d, id, body).revisions[id];
            |after| == |before| + 1 && after[..|before|] == before
            && after[|before|] == Revision(|before|, body.originalFilename, body.keepRevisionForever)
    ensures Updated(d, id, body).nextId == d.nextId && Updated(d, id, body).files.Keys == d.files.Keys
  {
    var d' := Updated(d, id, body);
    forall id' | id' in d'.revisions
      ensures id' in d'.files && Numbered(d'.revisions[id'])
    {
      if id' != id {
        assert id' in d.revisions;
      } else {
        var before := if id in d.revisions then d.revisions[id] else [];
        assert Numbered(before);
      }
    }
  }

  /** A revision update changes at most one field of one revision, and keeps the Drive well formed. */
  lemma RevisionKeptChangesOne(d: Drive, fileId: FileId, revisionId: nat, body: RevisionBody)
    requires WellFormed(d) && fileId in d.revisions && revisionId < |d.revisions[fileId]|
    ensures WellFormed(RevisionKept(d, fileId, revisionId, body))
    ensures var d' := RevisionKept(d, fileId, revisionId, body);
            d'.files == d.files && d'.nextId == d.nextId && d'.revisions.Keys == d.revisions.Keys
            && |d'.revisions[fileId]| == |d.revisions[fileId]|
            && (forall i :: 0 <= i < |d.revisions[fileId]| && i != revisionId ==> d'.revisions[fileId][i] == d.revisions[fileId][i])
            && d'.revisions[fileId][revisionId].id == revisionId
            && (body.keepForever.Some? ==> d'.revisions[fileId][revisionId].keepForever == body.keepForever.value)
  {
    var d' := RevisionKept(d, fileId, revisionId, body);
    assert Numbered(d.revisions[fileId]);
    forall id | id in d'.revisions
      ensures id in d'.files && Numbered(d'.revisions[id])
    {
      if id != fileId {
        assert id in d.revisions;
      }
    }
  }

  /** The revision `revisionId` of file `fileId` is present and to be kept forever. */
  predicate KeptForever(revisions: map<FileId, seq<Revision>>, fileId: FileId, revisionId: nat) {
    fileId in revisions && revisionId < |revisions[fileId]| && revisions[fileId][revisionId].keepForever
  }

  /**
   * A revision update that does not clear the flag never un-keeps a
   * revision, and one that sets it keeps its own revision forever.
   */
  lemma RevisionKeptMonotone(d: Drive, fileId: FileId, revisionId: nat, body: RevisionBody)
    requires fileId in d.revisions && revisionId < |d.revisions[fileId]| && body.keepForever != Some(false)
    ensures forall f: FileId, k: nat :: KeptForever(d.revisions, f, k) ==> KeptForever(RevisionKept(d, fileId, revisionId, body).revisions, f, k)
    ensures body.keepForever == Some(true) ==> KeptForever(RevisionKept(d, fileId, revisionId, body).revisions, fileId, revisionId)
  {
    var d' := RevisionKept(d, fileId, revisionId, body);
    forall f: FileId, k: nat | KeptForever(d.revisions, f, k)
      ensures KeptForever(d'.revisions, f, k)
    {
      if f == fileId && k != revisionId {
        assert d'.revisions[f][k] == d.revisions[f][k];
      }
    }
  }

  class Store {
    var drive: Drive
    const faults: Faults
    ghost var calls: seq<Call>

    constructor(drive: Drive, faults: Faults)
      ensures this.drive == drive && this.faults == faults && calls == []
    {
      this.drive := drive;
      this.faults := faults;
      calls := [];
    }

    /** `files->listFiles(['q' => ...])`. */
    method ListFiles(q: Query) returns (o: Outcome<set<DriveFile>>)
      modifies this`calls
      ensures calls == old(calls) + [ListFilesCall(q)]
      ensures o == ListOutcome(drive, faults, q)
      ensures o.Done? ==> forall f :: f in o.value ==> f.id in drive.files && drive.files[f.id] == f.meta && Matches(f.meta, q)
    {
      calls := calls + [ListFilesCall(q)];
      if ListFilesOp in faults {
        return Thrown(faults[ListFilesOp]);
      }
      return Done(Matching(drive, q));
    }

    /** `files->create`. */
    method Create(body: FileBody, data: Option<string>) returns (o: Outcome<DriveFile>)
      modifies this`calls, this`drive
      ensures calls == old(calls) + [CreateCall(body, data)]
      ensures old(CreateProblem(drive, faults, body)).Some? ==>
                o == Thrown(old(CreateProblem(drive, faults, body)).value) && drive == old(drive)
      ensures old(CreateProblem(drive, faults, body)).None? ==>
                o == Done(DriveFile(old(drive).nextId, NewMeta(body))) && drive == Created(old(drive), body)
    {
      calls := calls + [CreateCall(body, data)];
      var problem := CreateProblem(drive, faults, body);
      if problem.Some? {
        return Thrown(problem.value);
      }
      o := Done(DriveFile(drive.nextId, NewMeta(body)));
      drive := Created(drive, body);
    }

    /** `files->update` with new content. */
    method Update(id: FileId, body: FileBody, data: Option<string>) returns (o: Outcome<DriveFile>)
      modifies this`calls, this`drive
      ensures calls == old(calls) + [UpdateCall(id, body, data)]
      ensures old(UpdateProblem(drive, faults, id, body)).Some? ==>
                o == Thrown(old(UpdateProblem(drive, faults, id, body)).value) && drive == old(drive)
      ensures old(UpdateProblem(drive, faults, id, body)).None? ==>
                id in old(drive).files
                && o == Done(DriveFile(id, UpdatedMeta(old(drive).files[id], body)))
                && drive == Updated(old(drive), id, body)
    {
      calls := calls + [UpdateCall(id, body, data)];
      var problem := UpdateProblem(drive, faults, id, body);
      if problem.Some? {
        return Thrown(problem.value);
      }
      o := Done(DriveFile(id, UpdatedMeta(drive.files[id], body)));
      drive := Updated(drive, id, body);
    }

    /** `revisions->listRevisions`: the whole history of a file. */
    method ListRevisions(id: FileId) returns (o: Outcome<seq<Revision>>)
      modifies this`calls
      ensures calls == old(calls) + [ListRevisionsCall(id)]
      ensures ListRevisionsProblem(drive, faults, id).Some? ==> o == Thrown(ListRevisionsProblem(drive, faults, id).value)
      ensures ListRevisionsProblem(drive, faults, id).None? ==> id in drive.revisions && o == Done(drive.revisions[id])
    {
      calls := calls + [ListRevisionsCall(id)];
      var problem := ListRevisionsProblem(drive, faults, id);
      if problem.Some? {
        return Thrown(problem.value);
      }
      return Done(drive.revisions[id]);
    }

    /** `revisions->update`: sets the fields the body carries on one revision. */
    method UpdateRevision(fileId: FileId, revisionId: nat, body: RevisionBody) returns (o: Outcome<Revision>)
      modifies this`calls, this`drive
      ensures calls == old(calls) + [UpdateRevisionCall(fileId, revisionId, body)]
      ensures old(UpdateRevisionProblem(drive, faults, fileId, revisionId)).Some? ==>
                o == Thrown(old(UpdateRevisionProblem(drive, faults, fileId, revisionId)).value) && drive == old(drive)
      ensures old(UpdateRevisionProblem(drive, faults, fileId, revisionId)).None? ==>
                fileId in old(drive).revisions && revisionId < |old(drive).revisions[fileId]|
                && o == Done(RevisionUpdated(old(drive).revisions[fileId][revisionId], body))
                && drive == RevisionKept(old(drive), fileId, revisionId, body)
    {
      calls := calls + [UpdateRevisionCall(fileId, revisionId, body)];
      var problem := UpdateRevisionProblem(drive, faults, fileId, revisionId);
      if problem.Some? {
        return Thrown(problem.value);
      }
      o := Done(RevisionUpdated(drive.revisions[fileId][revisionId], body));
      drive := RevisionKept(drive, fileId, revisionId, body);
    }
  }
}
