// The upload task list of the client's upload panel
// (frontend/src/components/FileUpload.tsx).
//
// Files dropped or picked by the user are validated; each accepted file
// becomes a `pending` task appended to the list, and an upload is
// scheduled for it `offset * 500` ms later. Every later change to a task
// (start, progress tick, success, error) is addressed by its position in
// the list, computed once when the batch was processed. Timers and the
// network are not modelled: each callback is a separate step that the
// environment may run at any time, in any order.

module FileUpload {
  import opened Common
  import opened ApiTypes

  /** The size ceiling: 50 MiB. */
  const MaxFileSize: nat := 50 * 1024 * 1024
  const PdfMediaType: string := "application/pdf"
  const NotPdfMessage: string := "Only PDF files are supported"
  const TooLargeMessage: string := "File size must be less than 50MB"
  const UploadFailedMessage: string := "Upload failed"
  /** Delay between the scheduled starts of two consecutive files of a batch, in ms. */
  const StaggerMs: nat := 500
  /** Progress stops being advanced by ticks once it reaches this value. */
  const TickCeiling: int := 90
  const TickStep: int := 10

  /** What the browser reports of a chosen file. */
  datatype FileHandle = FileHandle(name: string, size: nat, mediaType: string)

  datatype Status = Pending | Uploading | Success | Error

  datatype UploadedFile = UploadedFile(
    file: FileHandle,
    status: Status,
    progress: int,
    documentId: Option<string>,
    error: Option<string>)

  /** A toast shown for a rejected file. */
  datatype Rejection = Rejection(fileName: string, description: string)

  /** One `setTimeout(() => uploadFile(task, index), delay)` call. */
  datatype ScheduledUpload = ScheduledUpload(task: UploadedFile, index: int, delayMs: nat)

  /** What an awaited upload threw: an `Error` instance, or the plain
      object the response interceptor rejects with. */
  datatype Thrown = ErrorInstance(message: string) | ApiRejection(apiError: ApiError)

  // ---------------------------------------------------------------
  // Validation
  // ---------------------------------------------------------------

  /** `validateFile`: the type is checked before the size; a file of
      exactly 50 MiB is accepted. */
  function ValidateFile(f: FileHandle): (r: Option<string>)
    ensures r == None <==> f.mediaType == PdfMediaType && f.size <= MaxFileSize
    ensures f.mediaType != PdfMediaType ==> r == Some(NotPdfMessage)
    ensures f.mediaType == PdfMediaType && f.size > MaxFileSize ==> r == Some(TooLargeMessage)
  {
    if f.mediaType != PdfMediaType then Some(NotPdfMessage)
    else if f.size > MaxFileSize then Some(TooLargeMessage)
    else None
  }

  predicate Accepted(f: FileHandle)
  {
    ValidateFile(f).None?
  }

  /** The size boundary: 52428800 bytes pass, one more byte does not. */
  lemma SizeBoundary(name: string)
    ensures Accepted(FileHandle(name, 52428800, PdfMediaType))
    ensures ValidateFile(FileHandle(name, 52428801, PdfMediaType)) == Some(TooLargeMessage)
  {
  }

  // ---------------------------------------------------------------
  // Per-task steps
  // ---------------------------------------------------------------

  function NewTask(f: FileHandle): UploadedFile
  {
    UploadedFile(f, Pending, 0, None, None)
  }

  /** `status: 'uploading', progress: 0`: the entry restarts at 0 and keeps
      everything else. */
  function Started(t: UploadedFile): (r: UploadedFile)
    ensures r.status == Uploading && r.progress == 0
    ensures r.file == t.file && r.documentId == t.documentId && r.error == t.error
  {
    t.(status := Uploading, progress := 0)
  }

  /** One interval tick: ten more below 90, otherwise no change; only the
      progress ever moves. */
  function Ticked(t: UploadedFile): (r: UploadedFile)
    ensures t.progress < TickCeiling ==> r.progress == t.progress + TickStep
    ensures t.progress >= TickCeiling ==> r == t
    ensures r.(progress := t.progress) == t
  {
    if t.progress < TickCeiling then t.(progress := t.progress + TickStep) else t
  }

  /** Success: complete, at 100, with the server's document id; the file
      and any earlier error text are kept. */
  function Succeeded(t: UploadedFile, documentId: string): (r: UploadedFile)
    ensures r.status == Success && r.progress == 100 && r.documentId == Some(documentId)
    ensures r.file == t.file && r.error == t.error
  {
    t.(status := Success, progress := 100, documentId := Some(documentId))
  }

  /** Failure: an error carrying the message; progress and document id are
      kept from whatever the entry held. */
  function Failed(t: UploadedFile, message: string): (r: UploadedFile)
    ensures r.status == Error && r.error == Some(message)
    ensures r.file == t.file && r.progress == t.progress && r.documentId == t.documentId
  {
    t.(status := Error, error := Some(message))
  }

  /** The message shown when an upload throws. */
  function UploadErrorMessage(e: Thrown): (r: string)
    ensures e.ErrorInstance? ==> r == e.message
    ensures e.ApiRejection? ==> r == UploadFailedMessage
  {
    match e
    case ErrorInstance(m) => m
    case ApiRejection(_) => UploadFailedMessage
  }

  /** Every rejection of the client's request layer is a plain object, not an
      `Error`, so the server's detail never reaches the upload list: the entry
      always shows the generic message. */
  lemma ServerDetailNeverShown(err: ApiError)
    ensures UploadErrorMessage(ApiRejection(err)) == UploadFailedMessage
  {
  }

  /** The invariant every task keeps: progress stays within 0..100 in steps
      of 10, 100 is reached only together with a document id, a success
      always carries 100 and an id, and an error always carries a message. */
  predicate TaskInvariant(t: UploadedFile)
  {
    && 0 <= t.progress <= 100
    && t.progress % TickStep == 0
    && (t.progress == 100 ==> t.documentId.Some?)
    && (t.status == Success ==> t.progress == 100 && t.documentId.Some?)
    && (t.status == Error ==> t.error.Some?)
  }

  lemma {:induction false} StepsKeepInvariant(t: UploadedFile, id: string, message: string)
    requires TaskInvariant(t)
    ensures TaskInvariant(Started(t)) && TaskInvariant(Ticked(t))
    ensures TaskInvariant(Succeeded(t, id)) && TaskInvariant(Failed(t, message))
    ensures Ticked(t).progress <= TickCeiling || Ticked(t).progress == 100
  {
    if t.progress < TickCeiling {
      assert t.progress <= 80;
    }
  }

  lemma NewTaskInvariant(f: FileHandle)
    ensures TaskInvariant(NewTask(f))
  {
  }

  /** A tick never lowers progress and never changes anything else. */
  lemma TickMonotone(t: UploadedFile)
    ensures Ticked(t).progress >= t.progress
    ensures Ticked(t).(progress := t.progress) == t
  {
  }

  function Ticks(t: UploadedFile, n: nat): UploadedFile
  {
    if n == 0 then t else Ticked(Ticks(t, n - 1))
  }

  /** From a fresh start, n ticks give progress min(10 n, 90): progress
      rises in steps of 10 and stalls at 90 until the response arrives. */
  lemma {:induction false} TicksFromStart(t: UploadedFile, n: nat)
    ensures Ticks(Started(t), n).progress == Min(TickStep * n, TickCeiling)
    ensures Ticks(Started(t), n).status == Uploading
  {
    if n > 0 {
      TicksFromStart(t, n - 1);
    }
  }

  /** Success snaps to 100 whatever the ticks had reached. */
  lemma SuccessAfterTicks(t: UploadedFile, n: nat, id: string)
    ensures Succeeded(Ticks(Started(t), n), id).progress == 100
    ensures Succeeded(Ticks(Started(t), n), id).status == Success
    ensures Succeeded(Ticks(Started(t), n), id).documentId == Some(id)
  {
  }

  /** The progress interval is cleared only after a successful upload; after
      an error it keeps running, so a failed task still climbs to 90 and
      stays an error. */
  lemma {:induction false} TicksContinueAfterError(t: UploadedFile, message: string, n: nat)
    requires TaskInvariant(t) && t.progress <= TickCeiling
    ensures Ticks(Failed(t, message), n).status == Error
    ensures Ticks(Failed(t, message), n).progress == Min(t.progress + TickStep * n, TickCeiling)
  {
    if n > 0 {
      TicksContinueAfterError(t, message, n - 1);
      var p := t.progress + TickStep * (n - 1);
      assert p % TickStep == 0;
    }
  }

  /** An error keeps the progress and document id the entry had. An update
      that lands on a task that already succeeded (see `RemovalShiftsTarget`)
      therefore yields an `error` task that still carries a document id and
      progress 100. */
  lemma FailureKeepsProgressAndId(t: UploadedFile, message: string)
    ensures Failed(t, message).progress == t.progress
    ensures Failed(t, message).documentId == t.documentId
    ensures Failed(t, message).status == Error && Failed(t, message).error == Some(message)
    ensures TaskInvariant(t) && t.status == Success ==> Failed(t, message).documentId.Some? && Failed(t, message).progress == 100
  {
  }

  // ---------------------------------------------------------------
  // The list: updates addressed by position
  // ---------------------------------------------------------------

  /** `prev.map((f, i) => i === index ? step(f) : f)`. */
  function UpdateAt(files: seq<UploadedFile>, index: int, step: UploadedFile -> UploadedFile): (r: seq<UploadedFile>)
    ensures |r| == |files|
    ensures forall j :: 0 <= j < |files| && j != index ==> r[j] == files[j]
    ensures 0 <= index < |files| ==> r[index] == step(files[index])
    ensures !(0 <= index < |files|) ==> r == files
  {
    seq(|files|, j requires 0 <= j < |files| => if j == index then step(files[j]) else files[j])
  }

  /** `prev.filter((_, i) => i !== index)`. */
  function RemoveAt(files: seq<UploadedFile>, index: int): (r: seq<UploadedFile>)
    ensures 0 <= index < |files| ==> |r| == |files| - 1
    ensures 0 <= index < |files| ==> forall j :: 0 <= j < |r| ==> r[j] == files[if j < index then j else j + 1]
    ensures !(0 <= index < |files|) ==> r == files
  {
    if 0 <= index < |files| then files[..index] + files[index + 1..] else files
  }

  /** An update computed before a removal is addressed by the old position:
      after removing position `removed`, the update for a later position `i`
      lands on the entry that followed it, and the entry it was meant for, now
      at `i - 1`, is not touched; for the last position it lands nowhere. */
  lemma RemovalShiftsTarget(files: seq<UploadedFile>, removed: int, i: int, step: UploadedFile -> UploadedFile)
    requires 0 <= removed < i < |files|
    ensures i < |files| - 1 ==> UpdateAt(RemoveAt(files, removed), i, step)[i] == step(files[i + 1])
    ensures UpdateAt(RemoveAt(files, removed), i, step)[i - 1] == files[i]
    ensures i == |files| - 1 ==> UpdateAt(RemoveAt(files, removed), i, step) == RemoveAt(files, removed)
  {
  }

  /** `prev.filter(f => f.status !== 'success')`. */
  function KeepUnfinished(files: seq<UploadedFile>): (r: seq<UploadedFile>)
    ensures |r| <= |files|
    ensures forall t :: t in r ==> t in files && t.status != Success
  {
    if files == [] then []
    else (if files[0].status != Success then [files[0]] else []) + KeepUnfinished(files[1..])
  }

  lemma {:induction false} KeepUnfinishedKeepsOthers(files: seq<UploadedFile>)
    ensures forall t :: t in files && t.status != Success ==> t in KeepUnfinished(files)
  {
    if files != [] {
      KeepUnfinishedKeepsOthers(files[1..]);
      assert forall t :: t in files ==> t == files[0] || t in files[1..];
    }
  }

  /** Clearing distributes over concatenation: the kept tasks stay in their
      original order. */
  lemma {:induction false} KeepUnfinishedAppend(a: seq<UploadedFile>, b: seq<UploadedFile>)
    ensures KeepUnfinished(a + b) == KeepUnfinished(a) + KeepUnfinished(b)
  {
    if a == [] {
      assert a + b == b;
    } else {
      assert (a + b)[1..] == a[1..] + b;
      KeepUnfinishedAppend(a[1..], b);
    }
  }

  lemma {:induction false} KeepUnfinishedIdempotent(files: seq<UploadedFile>)
    ensures KeepUnfinished(KeepUnfinished(files)) == KeepUnfinished(files)
  {
    if files != [] {
      var head := if files[0].status != Success then [files[0]] else [];
      KeepUnfinishedAppend(head, KeepUnfinished(files[1..]));
      KeepUnfinishedIdempotent(files[1..]);
      assert KeepUnfinished(head) == head by {
        if head != [] {
          assert head[1..] == [];
        }
      }
    }
  }

  // ---------------------------------------------------------------
  // Batches
  // ---------------------------------------------------------------

  /** The pending tasks a batch produces: one per accepted file, in order. */
  function PendingTasks(batch: seq<FileHandle>): (r: seq<UploadedFile>)
    ensures |r| <= |batch|
    ensures forall k :: 0 <= k < |r| ==> r[k].status == Pending && r[k].progress == 0 && Accepted(r[k].file)
  {
    if batch == [] then []
    else
      var last := batch[|batch| - 1];
      PendingTasks(batch[..|batch| - 1]) + (if Accepted(last) then [NewTask(last)] else [])
  }

  /** The toast one file produces: none when it is accepted, otherwise its
      name followed by the reason. */
  function RejectionOf(f: FileHandle): (r: seq<Rejection>)
    ensures Accepted(f) <==> r == []
    ensures !Accepted(f) ==> r == [Rejection(f.name, f.name + ": " + ValidateFile(f).value)]
  {
    match ValidateFile(f)
    case Some(reason) => [Rejection(f.name, f.name + ": " + reason)]
    case None => []
  }

  /** The toasts a batch produces: one per rejected file, in order. */
  function Rejections(batch: seq<FileHandle>): (r: seq<Rejection>)
    ensures |r| <= |batch|
    ensures forall k :: 0 <= k < |r| ==> exists f :: f in batch && !Accepted(f) && RejectionOf(f) == [r[k]]
  {
    if batch == [] then []
    else
      var last := batch[|batch| - 1];
      Rejections(batch[..|batch| - 1]) + RejectionOf(last)
  }

  /** Processing two batches one after the other yields the pending tasks of the
      first followed by those of the second. */
  lemma {:induction false} PendingTasksAppend(a: seq<FileHandle>, b: seq<FileHandle>)
    ensures PendingTasks(a + b) == PendingTasks(a) + PendingTasks(b)
  {
    if b == [] {
      assert a + b == a;
    } else {
      var init := b[..|b| - 1];
      assert (a + b)[..|a + b| - 1] == a + init;
      PendingTasksAppend(a, init);
    }
  }

  /** A one-file batch yields that file's task, or nothing when it is
      refused. With `PendingTasksAppend` this fixes what any batch yields:
      one per accepted file, in input order. */
  lemma PendingTasksOne(f: FileHandle)
    ensures PendingTasks([f]) == (if Accepted(f) then [NewTask(f)] else [])
  {
    assert [f][..0] == [];
  }

  /** The toasts of two batches are those of the first, then those of the
      second. */
  lemma {:induction false} RejectionsAppend(a: seq<FileHandle>, b: seq<FileHandle>)
    ensures Rejections(a + b) == Rejections(a) + Rejections(b)
  {
    if b == [] {
      assert a + b == a;
    } else {
      var init := b[..|b| - 1];
      assert (a + b)[..|a + b| - 1] == a + init;
      RejectionsAppend(a, init);
    }
  }

  /** A one-file batch yields that file's toast, or nothing when it is
      accepted. */
  lemma RejectionsOne(f: FileHandle)
    ensures Rejections([f]) == RejectionOf(f)
  {
    assert [f][..0] == [];
  }

  /** Every file of a batch yields exactly one task or one rejection. */
  lemma {:induction false} BatchSplit(batch: seq<FileHandle>)
    ensures |PendingTasks(batch)| + |Rejections(batch)| == |batch|
  {
    if batch != [] {
      BatchSplit(batch[..|batch| - 1]);
    }
  }

  /** A file gets a pending task exactly when it is in the batch and
      accepted (order is stated by `PendingTasksAppend`). */
  lemma {:induction false} PendingTasksAreAcceptedFiles(batch: seq<FileHandle>)
    ensures forall f :: f in batch && Accepted(f) <==> NewTask(f) in PendingTasks(batch)
  {
    if batch != [] {
      var init := batch[..|batch| - 1];
      PendingTasksAreAcceptedFiles(init);
      assert batch == init + [batch[|batch| - 1]];
    }
  }

  /** The uploads scheduled for a batch: the k-th accepted file is addressed
      at `renderedCount + k` and starts `k * 500` ms after the batch. */
  function Schedule(tasks: seq<UploadedFile>, renderedCount: nat): (r: seq<ScheduledUpload>)
    ensures |r| == |tasks|
    ensures forall k :: 0 <= k < |r| ==>
      r[k].task == tasks[k] && r[k].index == renderedCount + k && r[k].delayMs == StaggerMs * k
  {
    seq(|tasks|, k requires 0 <= k < |tasks| => ScheduledUpload(tasks[k], renderedCount + k, StaggerMs * k))
  }

  /** When the callback saw the current list length, each scheduled index
      addresses the entry created for that file. */
  lemma ScheduleHitsOwnTask(prev: seq<UploadedFile>, batch: seq<FileHandle>, k: nat)
    requires k < |PendingTasks(batch)|
    ensures Schedule(PendingTasks(batch), |prev|)[k].index < |prev + PendingTasks(batch)|
    ensures (prev + PendingTasks(batch))[Schedule(PendingTasks(batch), |prev|)[k].index] == PendingTasks(batch)[k]
  {
  }

  /** When the callback saw a shorter list than the one the batch is appended
      to (the count is captured at render time), the first scheduled starts
      land on older tasks instead of the new ones. */
  lemma StaleCountHitsOlderTask(prev: seq<UploadedFile>, batch: seq<FileHandle>, renderedCount: nat, k: nat)
    requires k < |PendingTasks(batch)| && renderedCount + k < |prev|
    ensures (prev + PendingTasks(batch))[Schedule(PendingTasks(batch), renderedCount)[k].index] == prev[renderedCount + k]
  {
  }

  /** The `forEach` over the batch in `processFiles`: each file is validated;
      a refused one gets its toast, an accepted one a pending task. */
  method SplitBatch(batch: seq<FileHandle>) returns (newFiles: seq<UploadedFile>, rejected: seq<Rejection>)
    ensures newFiles == PendingTasks(batch)
    ensures rejected == Rejections(batch)
  {
    newFiles, rejected := [], [];
    var i := 0;
    while i < |batch|
      invariant 0 <= i <= |batch|
      invariant newFiles == PendingTasks(batch[..i])
      invariant rejected == Rejections(batch[..i])
    {
      assert batch[..i + 1][..i] == batch[..i];
      var file := batch[i];
      var error := ValidateFile(file);
      if error.Some? {
        rejected := rejected + [Rejection(file.name, file.name + ": " + error.value)];
      } else {
        newFiles := newFiles + [NewTask(file)];
      }
      i := i + 1;
    }
    assert batch[..|batch|] == batch;
  }

  /** The `forEach` that schedules the new tasks' uploads. */
  method ScheduleUploads(newFiles: seq<UploadedFile>, renderedCount: nat) returns (scheduled: seq<ScheduledUpload>)
    ensures scheduled == Schedule(newFiles, renderedCount)
  {
    scheduled := [];
    var offset := 0;
    while offset < |newFiles|
      invariant 0 <= offset <= |newFiles|
      invariant scheduled == Schedule(newFiles[..offset], renderedCount)
    {
      scheduled := scheduled + [ScheduledUpload(newFiles[offset], renderedCount + offset, offset * StaggerMs)];
      offset := offset + 1;
    }
    assert newFiles[..|newFiles|] == newFiles;
  }

  // ---------------------------------------------------------------
  // The component's state
  // ---------------------------------------------------------------

  class UploadList {
    var files: seq<UploadedFile>

    ghost predicate Valid()
      reads this
    {
      forall i :: 0 <= i < |files| ==> TaskInvariant(files[i])
    }

    constructor ()
      ensures Valid() && files == []
    {
      files := [];
    }

    /** `processFiles`: validate each file, append the accepted ones as
        pending tasks, and schedule their uploads. `renderedCount` is the
        list length the callback captured when it was last created. */
    method ProcessFiles(batch: seq<FileHandle>, renderedCount: nat) returns (rejected: seq<Rejection>, scheduled: seq<ScheduledUpload>)
      requires Valid()
      modifies this
      ensures Valid()
      ensures files == old(files) + PendingTasks(batch)
      ensures rejected == Rejections(batch)
      ensures scheduled == Schedule(PendingTasks(batch), renderedCount)
    {
      var newFiles;
      newFiles, rejected := SplitBatch(batch);
      scheduled := [];
      if |newFiles| > 0 {
        files := files + newFiles;
        scheduled := ScheduleUploads(newFiles, renderedCount);
      }
    }

    /** The first step of `uploadFile`: the addressed task starts uploading. */
    method Start(index: int)
      requires Valid()
      modifies this
      ensures Valid()
      ensures files == UpdateAt(old(files), index, Started)
    {
      files := UpdateAt(files, index, Started);
      forall j | 0 <= j < |files| ensures TaskInvariant(files[j]) {
        StepsKeepInvariant(old(files)[j], "", "");
      }
    }

    /** One 200 ms interval tick of the synthetic progress. */
    method Tick(index: int)
      requires Valid()
      modifies this
      ensures Valid()
      ensures files == UpdateAt(old(files), index, Ticked)
    {
      files := UpdateAt(files, index, Ticked);
      forall j | 0 <= j < |files| ensures TaskInvariant(files[j]) {
        StepsKeepInvariant(old(files)[j], "", "");
      }
    }

    /** The upload resolved: the addressed task succeeds with the returned id. */
    method Succeed(index: int, response: UploadResponse)
      requires Valid()
      modifies this
      ensures Valid()
      ensures files == UpdateAt(old(files), index, t => Succeeded(t, response.documentId))
    {
      files := UpdateAt(files, index, t => Succeeded(t, response.documentId));
      forall j | 0 <= j < |files| ensures TaskInvariant(files[j]) {
        StepsKeepInvariant(old(files)[j], response.documentId, "");
      }
    }

    /** The upload threw: the addressed task records the error message. */
    method Fail(index: int, thrown: Thrown) returns (toast: string)
      requires Valid()
      modifies this
      ensures Valid()
      ensures toast == UploadErrorMessage(thrown)
      ensures files == UpdateAt(old(files), index, t => Failed(t, UploadErrorMessage(thrown)))
    {
      toast := UploadErrorMessage(thrown);
      files := UpdateAt(files, index, t => Failed(t, toast));
      forall j | 0 <= j < |files| ensures TaskInvariant(files[j]) {
        StepsKeepInvariant(old(files)[j], "", toast);
      }
    }

    /** `removeFile`: drops the entry at that position, whatever its status. */
    method RemoveFile(index: int)
      requires Valid()
      modifies this
      ensures Valid()
      ensures files == RemoveAt(old(files), index)
    {
      files := RemoveAt(files, index);
    }

    /** `clearCompleted`: drops every successful task. */
    method ClearCompleted()
      requires Valid()
      modifies this
      ensures Valid()
      ensures files == KeepUnfinished(old(files))
      ensures forall t :: t in old(files) && t.status != Success ==> t in files
    {
      KeepUnfinishedKeepsOthers(files);
      files := KeepUnfinished(files);
    }
  }
}
