// The server's document endpoints (backend/app/api/documents.py) over an
// in-memory documents collection and the set of files in the upload
// directory. What the retrieval pipeline does with an uploaded file is a
// parameter: the number of chunks it stored, or the message of the
// exception it raised. The clock reading that makes up the document id is
// a parameter too.

module DocumentsApi {
  import opened Common
  import opened Http

  const UploadDir: string := "./uploads"
  const PdfSuffix: string := ".pdf"
  const NotPdfDetail: string := "Only PDF files are allowed"
  const ProcessingErrorPrefix: string := "Error processing PDF: "
  const NotFoundDetail: string := "Document not found"
  /** The body FastAPI sends for an exception the handler does not catch. */
  const UnhandledDetail: string := "Internal Server Error"
  const UploadedMessage: string := "Document uploaded successfully"
  const DeletedMessage: string := "Document deleted successfully"
  /** `to_list(length=100)`. */
  const ListLength: nat := 100

  datatype DocRecord = DocRecord(id: string, userId: string, filename: string, uploadDate: int,
                                 numChunks: nat, filePath: string)
  datatype DocumentInfo = DocumentInfo(id: string, filename: string, uploadDate: int, numChunks: nat)
  datatype UploadReply = UploadReply(message: string, documentId: string, filename: string, chunks: nat)
  datatype Processing = Processed(numChunks: nat) | ProcessingFailed(message: string)

  /** `f"{current_user}_{timestamp}"`. */
  function DocumentId(user: string, stamp: string): (r: string)
    ensures StartsWith(r, user + "_")
  {
    user + "_" + stamp
  }

  /** Python's `os.path.join` of a directory and one more component on a
      POSIX system: an absolute component replaces the directory, otherwise
      the two are joined with a single '/'. */
  function JoinPath(dir: string, name: string): (r: string)
    ensures EndsWith(r, name)
    ensures StartsWith(name, "/") ==> r == name
    ensures !StartsWith(name, "/") ==> StartsWith(r, dir) && |r| <= |dir| + 1 + |name|
  {
    if StartsWith(name, "/") then name
    else if dir == [] || EndsWith(dir, "/") then dir + name
    else dir + "/" + name
  }

  /** `os.path.join(UPLOAD_DIR, f"{document_id}.pdf")`. */
  function UploadPath(documentId: string): (r: string)
    ensures EndsWith(r, PdfSuffix)
  {
    JoinPath(UploadDir, documentId + PdfSuffix)
  }

  /** `path` names a file directly inside directory `dir`. */
  predicate DirectlyIn(dir: string, path: string)
  {
    StartsWith(path, dir + "/") && '/' !in path[|dir| + 1..]
  }

  /** The upload lands directly in the upload directory exactly when the
      document id holds no '/'. A leading '/' makes the id an absolute path
      that replaces the directory; a '/' further in names a sub-directory
      of it. */
  lemma UploadPathDirectlyInIff(documentId: string)
    ensures DirectlyIn(UploadDir, UploadPath(documentId)) <==> '/' !in documentId
  {
    var name := documentId + PdfSuffix;
    var r := UploadPath(documentId);
    if StartsWith(name, "/") {
      assert r == name && r[0] == '/';
      assert (UploadDir + "/")[0] == '.';
      assert documentId[0] == '/';
    } else {
      assert r == UploadDir + "/" + name;
      assert r[|UploadDir| + 1..] == name;
      assert '/' !in PdfSuffix;
    }
  }

  /** A user whose email starts with '/' (such as "/srv@x.io") has the file
      written at that absolute path, outside the upload directory. */
  lemma AbsoluteUserEscapesUploadDir(user: string, stamp: string)
    requires StartsWith(user, "/")
    ensures UploadPath(DocumentId(user, stamp)) == DocumentId(user, stamp) + PdfSuffix
    ensures !StartsWith(UploadPath(DocumentId(user, stamp)), UploadDir + "/")
  {
    var name := DocumentId(user, stamp) + PdfSuffix;
    assert name[0] == user[0] == '/';
    assert StartsWith(name, "/");
    assert (UploadDir + "/")[0] == '.';
  }

  /** The path starts with '/' exactly when the joined name does. */
  lemma UploadPathHead(documentId: string)
    ensures |UploadPath(documentId)| > 0
    ensures UploadPath(documentId)[0] == '/' <==> StartsWith(documentId + PdfSuffix, "/")
  {
    if !StartsWith(documentId + PdfSuffix, "/") {
      assert UploadPath(documentId) == UploadDir + "/" + documentId + PdfSuffix;
    }
  }

  /** Different documents are stored under different paths. */
  lemma UploadPathInjective(a: string, b: string)
    requires UploadPath(a) == UploadPath(b)
    ensures a == b
  {
    var na, nb := a + PdfSuffix, b + PdfSuffix;
    UploadPathHead(a);
    UploadPathHead(b);
    if StartsWith(na, "/") {
      assert a == na[..|na| - |PdfSuffix|] && b == nb[..|nb| - |PdfSuffix|];
    } else {
      var n := |UploadDir + "/"|;
      assert UploadPath(a) == UploadDir + "/" + na && UploadPath(b) == UploadDir + "/" + nb;
      assert a == UploadPath(a)[n..|UploadPath(a)| - |PdfSuffix|];
      assert b == UploadPath(b)[n..|UploadPath(b)| - |PdfSuffix|];
    }
  }

  predicate UniqueIds(records: seq<DocRecord>)
  {
    forall i, j :: 0 <= i < j < |records| ==> records[i].id != records[j].id
  }

  predicate HasId(records: seq<DocRecord>, id: string)
  {
    exists rec :: rec in records && rec.id == id
  }

  /** `find_one({"_id": id, "user_id": user})`. */
  function FindOwned(records: seq<DocRecord>, id: string, user: string): (r: Option<DocRecord>)
    ensures r.Some? ==> r.value in records && r.value.id == id && r.value.userId == user
    ensures r.None? <==> forall rec :: rec in records ==> rec.id != id || rec.userId != user
  {
    if records == [] then None
    else if records[0].id == id && records[0].userId == user then Some(records[0])
    else FindOwned(records[1..], id, user)
  }

  /** `delete_one({"_id": id})`. */
  function RemoveId(records: seq<DocRecord>, id: string): (r: seq<DocRecord>)
    ensures forall rec :: rec in r <==> rec in records && rec.id != id
    ensures |r| <= |records|
  {
    if records == [] then []
    else (if records[0].id == id then [] else [records[0]]) + RemoveId(records[1..], id)
  }

  /** With unique ids, deleting a stored id removes exactly one record and
      keeps the ids unique. */
  lemma {:induction false} RemoveIdRemovesOne(records: seq<DocRecord>, id: string)
    requires UniqueIds(records) && HasId(records, id)
    ensures |RemoveId(records, id)| == |records| - 1
    ensures UniqueIds(RemoveId(records, id))
  {
    if records[0].id == id {
      RemoveIdAbsent(records[1..], id);
    } else {
      assert HasId(records[1..], id) by {
        var rec :| rec in records && rec.id == id;
        assert rec in records[1..];
      }
      RemoveIdRemovesOne(records[1..], id);
    }
  }

  lemma {:induction false} RemoveIdAbsent(records: seq<DocRecord>, id: string)
    requires forall rec :: rec in records ==> rec.id != id
    ensures RemoveId(records, id) == records
  {
    if records != [] {
      RemoveIdAbsent(records[1..], id);
    }
  }

  /** `find({"user_id": user})`. */
  function OwnedBy(records: seq<DocRecord>, user: string): (r: seq<DocRecord>)
    ensures |r| <= |records|
    ensures forall rec :: rec in r <==> rec in records && rec.userId == user
  {
    if records == [] then []
    else (if records[0].userId == user then [records[0]] else []) + OwnedBy(records[1..], user)
  }

  /** The response model's view of a record. */
  function Info(rec: DocRecord): DocumentInfo
  {
    DocumentInfo(rec.id, rec.filename, rec.uploadDate, rec.numChunks)
  }

  class DocumentStore {
    var records: seq<DocRecord>
    var files: set<string>

    ghost predicate Valid()
      reads this
    {
      UniqueIds(records)
    }

    constructor ()
      ensures Valid() && records == [] && files == {}
    {
      records, files := [], {};
    }

    /** `upload_document`. A name not ending in ".pdf" is refused before
        anything is written. Otherwise the file is opened for writing at
        `UploadPath`; `saved` says whether that succeeded (it fails when the
        path names a directory that does not exist), and a failed open is an
        exception the handler does not catch. A saved file is processed; a
        processing failure removes it again and becomes a 500. A processed
        file whose id is already stored fails on insert and leaves the file
        behind; any other is recorded. */
    method Upload(user: string, filename: string, stamp: string, now: int, saved: bool, processing: Processing)
      returns (r: Result<UploadReply>)
      requires Valid()
      modifies this
      ensures Valid()
      ensures !EndsWith(filename, PdfSuffix) ==>
                r == Err(HttpError(BadRequest, NotPdfDetail)) && records == old(records) && files == old(files)
      ensures EndsWith(filename, PdfSuffix) && !saved ==>
                r == Err(HttpError(InternalServerError, UnhandledDetail)) && records == old(records) && files == old(files)
      ensures var id := DocumentId(user, stamp);
              EndsWith(filename, PdfSuffix) && saved && processing.ProcessingFailed? ==>
                && r == Err(HttpError(InternalServerError, ProcessingErrorPrefix + processing.message))
                && records == old(records) && files == old(files) - {UploadPath(id)}
      ensures var id := DocumentId(user, stamp);
              EndsWith(filename, PdfSuffix) && saved && processing.Processed? && HasId(old(records), id) ==>
                && r == Err(HttpError(InternalServerError, UnhandledDetail))
                && records == old(records) && files == old(files) + {UploadPath(id)}
      ensures var id := DocumentId(user, stamp);
              EndsWith(filename, PdfSuffix) && saved && processing.Processed? && !HasId(old(records), id) ==>
                && records == old(records) + [DocRecord(id, user, filename, now, processing.numChunks, UploadPath(id))]
                && files == old(files) + {UploadPath(id)}
                && r == Ok(UploadReply(UploadedMessage, id, filename, processing.numChunks))
    {
      if !EndsWith(filename, PdfSuffix) {
        return Err(HttpError(BadRequest, NotPdfDetail));
      }
      if !saved {
        return Err(HttpError(InternalServerError, UnhandledDetail));
      }
      var id := DocumentId(user, stamp);
      r := SaveAndRecord(id, user, filename, UploadPath(id), now, processing);
    }

    /** The rest of `upload_document` once the file is open at `path`: the
        file is written and processed; a processing failure removes it again
        and becomes a 500; a stored id fails on insert and leaves the file
        behind; any other document is recorded. */
    method SaveAndRecord(id: string, user: string, filename: string, path: string, now: int, processing: Processing)
      returns (r: Result<UploadReply>)
      requires Valid()
      modifies this
      ensures Valid()
      ensures processing.ProcessingFailed? ==>
                && r == Err(HttpError(InternalServerError, ProcessingErrorPrefix + processing.message))
                && records == old(records) && files == old(files) - {path}
      ensures processing.Processed? && HasId(old(records), id) ==>
                && r == Err(HttpError(InternalServerError, UnhandledDetail))
                && records == old(records) && files == old(files) + {path}
      ensures processing.Processed? && !HasId(old(records), id) ==>
                && records == old(records) + [DocRecord(id, user, filename, now, processing.numChunks, path)]
                && files == old(files) + {path}
                && r == Ok(UploadReply(UploadedMessage, id, filename, processing.numChunks))
    {
      files := files + {path};
      match processing {
        case ProcessingFailed(message) =>
          files := files - {path};
          return Err(HttpError(InternalServerError, ProcessingErrorPrefix + message));
        case Processed(numChunks) =>
          if HasId(records, id) {
            return Err(HttpError(InternalServerError, UnhandledDetail));
          }
          records := records + [DocRecord(id, user, filename, now, numChunks, path)];
          r := Ok(UploadReply(UploadedMessage, id, filename, numChunks));
      }
    }

    /** `list_documents`: the first hundred of the user's records, in stored
        order, and nothing of anyone else's. */
    function List(user: string): (r: seq<DocumentInfo>)
      reads this
      ensures |r| == Min(ListLength, |OwnedBy(records, user)|)
      ensures forall k :: 0 <= k < |r| ==> r[k] == Info(OwnedBy(records, user)[k])
      ensures forall d :: d in r ==> exists rec :: rec in records && rec.userId == user && Info(rec) == d
    {
      var owned := OwnedBy(records, user);
      var shown := owned[..Min(ListLength, |owned|)];
      assert forall k :: 0 <= k < |shown| ==> shown[k] in owned;
      seq(|shown|, k requires 0 <= k < |shown| => Info(shown[k]))
    }

    /** `delete_document`: a record that is missing or belongs to someone else
        gives 404 and changes nothing; the owner's record is removed together
        with its file. */
    method Delete(user: string, id: string) returns (r: Result<string>)
      requires Valid()
      modifies this
      ensures Valid()
      ensures FindOwned(old(records), id, user).None? ==>
                r == Err(HttpError(NotFound, NotFoundDetail)) && records == old(records) && files == old(files)
      ensures FindOwned(old(records), id, user).Some? ==>
                && r == Ok(DeletedMessage)
                && records == RemoveId(old(records), id) && |records| == |old(records)| - 1
                && files == old(files) - {FindOwned(old(records), id, user).value.filePath}
    {
      var found := FindOwned(records, id, user);
      if found.None? {
        return Err(HttpError(NotFound, NotFoundDetail));
      }
      var doc := found.value;
      if doc.filePath in files {
        files := files - {doc.filePath};
      }
      RemoveIdRemovesOne(records, id);
      records := RemoveId(records, id);
      r := Ok(DeletedMessage);
    }
  }

  /** A document that was just uploaded is listed for its owner, unless the
      owner already had a hundred. */
  method UploadThenList(store: DocumentStore, user: string, filename: string, stamp: string, now: int, numChunks: nat)
    returns (r: Result<UploadReply>, listed: seq<DocumentInfo>)
    requires store.Valid()
    requires EndsWith(filename, PdfSuffix) && !HasId(store.records, DocumentId(user, stamp))
    requires |OwnedBy(store.records, user)| < ListLength
    modifies store
    ensures r.Ok?
    ensures DocumentInfo(DocumentId(user, stamp), filename, now, numChunks) in listed
  {
    r := store.Upload(user, filename, stamp, now, true, Processed(numChunks));
    var rec := DocRecord(DocumentId(user, stamp), user, filename, now, numChunks, UploadPath(DocumentId(user, stamp)));
    OwnedByAppend(old(store.records), rec, user);
    listed := store.List(user);
    assert listed[|listed| - 1] == Info(rec);
  }

  lemma {:induction false} OwnedByAppend(records: seq<DocRecord>, rec: DocRecord, user: string)
    requires rec.userId == user
    ensures OwnedBy(records + [rec], user) == OwnedBy(records, user) + [rec]
  {
    if records == [] {
      assert OwnedBy([rec], user) == [rec] + OwnedBy([], user);
    } else {
      assert (records + [rec])[1..] == records[1..] + [rec];
      OwnedByAppend(records[1..], rec, user);
    }
  }
}
