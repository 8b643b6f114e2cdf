# StudyMate: a Dafny model of the client's state logic and the server's handlers

StudyMate lets a user register and log in, upload PDF files, and ask
questions answered from those files. A React client talks to a FastAPI
server. The server keeps accounts, document records and chat history in
MongoDB. It keeps the text chunks of every user's documents in a vector
collection named after the user.

This project models both sides as Dafny modules, one per source file.

Client side:

- `FileUpload`: the upload task list.
  - Validation: PDF type first, then a 50 MiB ceiling.
  - Pending tasks are appended; uploads are staggered by 500 ms.
  - Every later update is addressed by a position computed when the batch was processed.
  - Synthetic progress ticks by 10 up to 90.
  - Success and error steps; removal; clearing of finished tasks.
- `ChatInterface`: the chat panel.
  - The history is expanded into question/answer message pairs.
  - The submit guard; the user message appended before the request.
  - The answer appended after it; the in-flight flag.
- `DocumentList`: the document panel.
  - The selection toggle and the case-insensitive filename search.
  - The listing refresh, and the local delete.
- `ApiClient`: the token cache in front of browser storage.
  - The `Authorization` header.
  - The error rule applied to every failed request: the message fallback chain, and on a 401 clearing the token and redirecting.
- `AuthContext`: reading a user out of a token's payload, and the startup, login, registration and logout transitions.
- `RegisterPage`, `LoginPage` and `DashboardPage`: the two forms' submit handlers, and the dashboard's counters.

Server side:

- `AuthApi`: registration (a duplicate email is refused) and login (one error for an unknown email and for a wrong password).
- `ChatApi`: recording a query's exchange, and listing a user's history newest first.
- `DocumentsApi`: upload, listing and deletion.
  - Upload: a `.pdf` name check, then the file is saved, processed, cleaned up on failure, and recorded.
  - Deletion is limited to the document's owner.
- `Rag`: the retrieval pipeline.
  - Per-user collection names; page text extraction.
  - Chunk ids and metadata.
  - The query's document filter, and its source list.

`Common` holds the optional value and the few JavaScript and Python string operations the code relies on. `ApiTypes` holds the client's record shapes, and `Http` holds the server's result and error shapes.

State the source changes in place is a Dafny class with `modifies` clauses:

- React component state and the module-level token cache.
- MongoDB collections, the upload directory and the vector store.

An `async` handler is split at its `await` into two methods. The first runs up to the request and returns it. The second takes the request's outcome (`Outcome`: resolved value or rejection) and runs the rest, including any `finally`.

Several environment inputs are parameters of the operations that use them:

- clock readings;
- the ObjectId the database assigns;
- the password hash and check, and token signing;
- token payload decoding;
- the PDF page texts and the text splitter;
- the similarity search hits and the generated answer;
- the outcome of the PDF processing an upload triggers.

Things the model shows about the code:

- An upload failure that comes from an HTTP error always shows "Upload failed".
  - The request layer rejects with a plain object, not an `Error`.
  - So the server's detail never reaches the upload list (`FileUpload.ServerDetailNeverShown`).
- Progress updates are addressed by position, and the position is computed from the list length the callback captured.
  - After a removal, or with a stale length, an update lands on another task (`FileUpload.RemovalShiftsTarget`, `FileUpload.StaleCountHitsOlderTask`).
  - An error step on a task that already succeeded leaves an error task with progress 100 and a document id.
- The progress interval is cleared only after a successful upload. A failed task keeps ticking up to 90 (`FileUpload.TicksContinueAfterError`).
- The server signs tokens over `sub` only, so the client shows every user as "User" (`AuthContext.ServerIssuedTokenUser`).
- The empty string given as a token comes back as null (`ApiClient.SetThenGet`).
- Accounts whose emails differ only in '.' versus '_' or '@' share one vector collection. Each can query the other's chunks (`Rag.DistinctUsersShareCollection`, `Rag.UploadThenQueryAsOther`).
- Deleting a document removes its record and file but not its chunks: `DocumentsApi` never touches the vector store.
- The upload path comes from `os.path.join`, and the user id is an email that may hold '/'. An id starting with '/' is an absolute path that replaces ./uploads; a '/' further in names a subdirectory of ./uploads, which the handler never creates (`DocumentsApi.UploadPathDirectlyInIff`, `DocumentsApi.AbsoluteUserEscapesUploadDir`).

## Model

| member | source | states |
|---|---|---|
| `FileUpload.ValidateFile` | frontend/src/components/FileUpload.tsx:44-52 | a file is accepted iff it is a PDF of at most 50 MiB; a non-PDF gets the type message whatever its size, an oversized PDF the size message |
| `FileUpload.SizeBoundary` | frontend/src/components/FileUpload.tsx:48 | exactly 52428800 bytes pass, 52428801 bytes are refused |
| `FileUpload.UploadErrorMessage` | frontend/src/components/FileUpload.tsx:86 | an `Error` shows its own message, anything else the fixed "Upload failed" |
| `FileUpload.ServerDetailNeverShown` | frontend/src/services/api.ts:66-80 | every rejection of the request layer shows "Upload failed", whatever the server's detail |
| `FileUpload.StepsKeepInvariant` | frontend/src/components/FileUpload.tsx:55-91 | start, tick, success and error each keep the entry invariant (progress 0..100 in steps of 10, 100 only with a document id, success implies 100 and an id, error implies a message) |
| `FileUpload.NewTaskInvariant` | frontend/src/components/FileUpload.tsx:115-119 | a new pending task satisfies the invariant |
| `FileUpload.Started` | frontend/src/components/FileUpload.tsx:55-57 | a started entry is uploading at 0 and keeps its file, id and error |
| `FileUpload.Ticked` | frontend/src/components/FileUpload.tsx:62-66 | a tick adds 10 below 90, changes nothing from 90 on, and moves only the progress |
| `FileUpload.Succeeded` | frontend/src/components/FileUpload.tsx:73-77 | a succeeded entry is complete at 100 with the returned id, keeping its file and error text |
| `FileUpload.Failed` | frontend/src/components/FileUpload.tsx:87-91 | a failed entry is an error with the message, keeping its file, progress and id |
| `FileUpload.TickMonotone` | frontend/src/components/FileUpload.tsx:62-66 | a tick never lowers progress and changes nothing but progress |
| `FileUpload.TicksFromStart` | frontend/src/components/FileUpload.tsx:55-67 | n ticks after a start give progress min(10 n, 90) and the entry stays uploading |
| `FileUpload.TicksContinueAfterError` | frontend/src/components/FileUpload.tsx:59-91 | after an error the ticks keep raising progress to 90 and the entry stays an error |
| `FileUpload.SuccessAfterTicks` | frontend/src/components/FileUpload.tsx:73-77 | success sets progress 100, status success and the returned id, whatever the ticks reached |
| `FileUpload.FailureKeepsProgressAndId` | frontend/src/components/FileUpload.tsx:87-91 | an error keeps progress and document id, so a failed update on a succeeded task keeps 100 and its id |
| `FileUpload.UpdateAt` | frontend/src/components/FileUpload.tsx:55-57 | an update by position changes only that position, and nothing when the position is out of range |
| `FileUpload.RemoveAt` | frontend/src/components/FileUpload.tsx:148-150 | removal drops exactly the given position and shifts the later tasks down by one |
| `FileUpload.RemovalShiftsTarget` | frontend/src/components/FileUpload.tsx:149 | after a removal an update for a later position hits the following task, or nothing for the last position |
| `FileUpload.KeepUnfinished` | frontend/src/components/FileUpload.tsx:152-154 | clearing keeps only tasks from the list that are not successful |
| `FileUpload.KeepUnfinishedKeepsOthers` | frontend/src/components/FileUpload.tsx:153 | every task that is not successful survives clearing |
| `FileUpload.KeepUnfinishedAppend` | frontend/src/components/FileUpload.tsx:153 | clearing keeps the entries in their order |
| `FileUpload.KeepUnfinishedIdempotent` | frontend/src/components/FileUpload.tsx:152-154 | clearing twice is clearing once |
| `FileUpload.PendingTasks` | frontend/src/components/FileUpload.tsx:104-120 | a batch yields at most one task per file, each pending, at 0 and of an accepted file |
| `FileUpload.PendingTasksAppend` | frontend/src/components/FileUpload.tsx:104-120 | a concatenated batch yields the first part's tasks followed by the second part's, so tasks follow input order |
| `FileUpload.PendingTasksOne` | frontend/src/components/FileUpload.tsx:104-120 | a single file yields its pending task when accepted and nothing when refused |
| `FileUpload.RejectionOf` | frontend/src/components/FileUpload.tsx:105-111 | an accepted file gets no toast; a refused one exactly one, "name: reason" |
| `FileUpload.Rejections` | frontend/src/components/FileUpload.tsx:104-113 | at most one toast per file, each the toast of a refused file of the batch |
| `FileUpload.RejectionsAppend` | frontend/src/components/FileUpload.tsx:104-113 | the toasts of a concatenated batch are those of the first part followed by those of the second |
| `FileUpload.RejectionsOne` | frontend/src/components/FileUpload.tsx:104-113 | a single file yields exactly its own toast, or none |
| `FileUpload.BatchSplit` | frontend/src/components/FileUpload.tsx:104-120 | every file of a batch yields exactly one task or one rejection toast |
| `FileUpload.PendingTasksAreAcceptedFiles` | frontend/src/components/FileUpload.tsx:104-120 | a file gets a task iff it is in the batch and accepted (as membership; order is `PendingTasksAppend`) |
| `FileUpload.Schedule` | frontend/src/components/FileUpload.tsx:126-129 | the k-th new task is addressed at the captured length plus k and starts k times 500 ms later |
| `FileUpload.ScheduleHitsOwnTask` | frontend/src/components/FileUpload.tsx:127 | with the current length captured, every scheduled position addresses the entry made for that file |
| `FileUpload.StaleCountHitsOlderTask` | frontend/src/components/FileUpload.tsx:127-131 | with a stale, shorter length captured, a scheduled position addresses an older task |
| `FileUpload.SplitBatch` | frontend/src/components/FileUpload.tsx:104-120 | the validation loop yields exactly `PendingTasks` and `Rejections` of the batch |
| `FileUpload.ScheduleUploads` | frontend/src/components/FileUpload.tsx:126-129 | the scheduling loop yields exactly `Schedule` of the new tasks |
| `FileUpload.UploadList.ProcessFiles` | frontend/src/components/FileUpload.tsx:101-131 | the list grows by exactly the batch's pending tasks; the toasts and scheduled uploads are those of the batch; the invariant is kept |
| `FileUpload.UploadList.Start` | frontend/src/components/FileUpload.tsx:55-57 | the addressed task starts at progress 0; the invariant is kept |
| `FileUpload.UploadList.Tick` | frontend/src/components/FileUpload.tsx:61-66 | the addressed task ticks; the invariant is kept |
| `FileUpload.UploadList.Succeed` | frontend/src/components/FileUpload.tsx:73-77 | the addressed task succeeds with the returned id; the invariant is kept |
| `FileUpload.UploadList.Fail` | frontend/src/components/FileUpload.tsx:85-97 | the addressed task fails with the message also shown in the toast; the invariant is kept |
| `FileUpload.UploadList.RemoveFile` | frontend/src/components/FileUpload.tsx:148-150 | the position is removed whatever the entry's status; the invariant is kept |
| `FileUpload.UploadList.ClearCompleted` | frontend/src/components/FileUpload.tsx:152-154 | successful tasks go, every other task stays |
| `ChatInterface.Expand` | frontend/src/components/ChatInterface.tsx:63-79 | a history of n records expands to 2 n messages |
| `ChatInterface.ExpandPairs` | frontend/src/components/ChatInterface.tsx:65-79 | record k becomes message 2k (its question, id "q-" + timestamp) and 2k+1 (its answer with sources, id "a-" + timestamp) |
| `ChatInterface.ExpandAlternates` | frontend/src/components/ChatInterface.tsx:65-79 | the expanded messages alternate user, assistant |
| `ChatInterface.CanSubmit` | frontend/src/components/ChatInterface.tsx:93 | the guard refuses while a request is in flight and for an input of white space only |
| `ChatInterface.CanSubmitIff` | frontend/src/components/ChatInterface.tsx:93 | a submit proceeds iff nothing is in flight and the input has a non-space character |
| `ChatInterface.QueryFor` | frontend/src/components/ChatInterface.tsx:107-110 | the request carries the trimmed message, and document ids iff at least one is selected |
| `ChatInterface.ReplyMessage` | frontend/src/components/ChatInterface.tsx:112-118 | the reply is an assistant message with id "assistant-…", the answer, its sources and the server timestamp |
| `ChatInterface.ChatSession.LoadHistory` | frontend/src/components/ChatInterface.tsx:60-86 | on success the messages become the expanded history; a failure changes nothing |
| `ChatInterface.ChatSession.SetInput` | frontend/src/components/ChatInterface.tsx:281 | the input takes the typed text |
| `ChatInterface.ChatSession.SetSelectedDocIds` | frontend/src/components/ChatInterface.tsx:167 | the selection takes the list the document panel reports |
| `ChatInterface.ChatSession.BeginSubmit` | frontend/src/components/ChatInterface.tsx:91-110 | a failed guard changes nothing and sends nothing; otherwise one user message with the trimmed input is appended, the input cleared, loading set and the request returned |
| `ChatInterface.ChatSession.Settle` | frontend/src/components/ChatInterface.tsx:111-129 | success appends exactly one assistant message; failure appends nothing and toasts; loading ends in both |
| `ChatInterface.SubmitWhileInFlight` | frontend/src/components/ChatInterface.tsx:93 | a second submit while a request is in flight sends nothing and adds no message |
| `DocumentList.RemoveAll` | frontend/src/components/DocumentList.tsx:102 | the id is gone and every other selected id stays |
| `DocumentList.RemoveAllAppend` | frontend/src/components/DocumentList.tsx:102 | removal keeps the order of the other ids |
| `DocumentList.RemoveAllAbsent` | frontend/src/components/DocumentList.tsx:102 | removing an absent id changes nothing |
| `DocumentList.RemoveAllKeepsNoDuplicates` | frontend/src/components/DocumentList.tsx:102 | removal keeps a duplicate-free selection duplicate-free |
| `DocumentList.Toggled` | frontend/src/components/DocumentList.tsx:100-105 | a selected id is removed everywhere; an unselected id is appended at the end |
| `DocumentList.HandleSelect` | frontend/src/components/DocumentList.tsx:97-106 | a selection is reported iff the list is selectable and has a callback, and then it is the toggled list |
| `DocumentList.ToggleTwice` | frontend/src/components/DocumentList.tsx:100-105 | selecting and then deselecting an id gives back the original selection |
| `DocumentList.ToggleKeepsNoDuplicates` | frontend/src/components/DocumentList.tsx:100-105 | toggling never makes an id appear twice |
| `DocumentList.MatchesQuery` | frontend/src/components/DocumentList.tsx:109 | the empty query matches every document |
| `DocumentList.FilterDocs` | frontend/src/components/DocumentList.tsx:108-110 | a document is shown iff its lower-cased filename contains the lower-cased query |
| `DocumentList.FilterDocsAppend` | frontend/src/components/DocumentList.tsx:108-110 | the search keeps the listed order |
| `DocumentList.EmptyQueryKeepsAll` | frontend/src/components/DocumentList.tsx:108-110 | an empty search shows every document |
| `DocumentList.QueryCaseIgnored` | frontend/src/components/DocumentList.tsx:109 | the query's letter case does not matter |
| `DocumentList.WithoutDocument` | frontend/src/components/DocumentList.tsx:80 | after a delete, exactly the documents with other ids remain |
| `DocumentList.WithoutDocumentAppend` | frontend/src/components/DocumentList.tsx:80 | the remaining documents keep their order |
| `DocumentList.DocumentListView.BeginFetch` | frontend/src/components/DocumentList.tsx:54-57 | a refresh starts by setting loading |
| `DocumentList.DocumentListView.FinishFetch` | frontend/src/components/DocumentList.tsx:54-68 | success replaces the list, failure keeps it and toasts; loading ends in both |
| `DocumentList.DocumentListView.SetDeleteDocId` | frontend/src/components/DocumentList.tsx:212 | the confirmation dialog targets the given id |
| `DocumentList.DocumentListView.BeginDelete` | frontend/src/components/DocumentList.tsx:74-79 | nothing starts without a truthy pending id; otherwise the delete starts for that id |
| `DocumentList.DocumentListView.FinishDelete` | frontend/src/components/DocumentList.tsx:79-94 | success removes the document locally, failure keeps the list and toasts; the dialog closes and deleting ends in both |
| `ApiClient.StoredValue` | frontend/src/services/api.ts:45 | storage yields a value iff the key is present |
| `ApiClient.BearerValue` | frontend/src/services/api.ts:53-56 | a header value exists iff the token is truthy, and it is "Bearer " + token |
| `ApiClient.WithAuthorization` | frontend/src/services/api.ts:51-58 | a truthy token sets the Authorization header; otherwise the headers are sent unchanged |
| `ApiClient.ErrorMessage` | frontend/src/services/api.ts:66-69 | the message is the server's detail, else the transport message, else the fixed text, and never empty |
| `ApiClient.RedirectsOn401` | frontend/src/services/api.ts:72-77 | a path starting with "/login" or "/register" is not redirected |
| `ApiClient.NoRedirectFromAuthPages` | frontend/src/services/api.ts:75 | a path containing "/login" or "/register" is never redirected |
| `ApiClient.TokenStore.SetAuthToken` | frontend/src/services/api.ts:34-41 | the cache takes the value; storage keeps a truthy token and drops the key otherwise |
| `ApiClient.TokenStore.GetAuthToken` | frontend/src/services/api.ts:43-48 | the result is the truthy cached token, else the stored one, which is then cached |
| `ApiClient.TokenStore.PrepareRequest` | frontend/src/services/api.ts:51-60 | the request carries the current token's header |
| `ApiClient.TokenStore.OnResponseError` | frontend/src/services/api.ts:63-82 | every failure is rejected with the message and status; a 401 clears the token and redirects to /login away from the auth pages |
| `ApiClient.SetThenGet` | frontend/src/services/api.ts:34-48 | a token set and read back is returned unchanged when null or non-empty; the empty string comes back as null |
| `AuthContext.EmailOf` | frontend/src/contexts/AuthContext.tsx:31 | the email is the truthy `email`, else the truthy `sub`, else empty |
| `AuthContext.EmailLocalPart` | frontend/src/contexts/AuthContext.tsx:32 | `email?.split('@')[0]`: present iff the email is, a prefix of it without '@', ending just before the first '@' |
| `AuthContext.UsernameOf` | frontend/src/contexts/AuthContext.tsx:32 | the username is never empty; it is `username`, else `name`, else the email's part before '@', else "User" |
| `AuthContext.UsernameFromEmail` | frontend/src/contexts/AuthContext.tsx:32 | without name fields, a missing, empty or '@'-first email gives "User", and an email without '@' is used whole |
| `AuthContext.DecodeToken` | frontend/src/contexts/AuthContext.tsx:26-37 | a user is decoded iff the token has a second dot-separated piece that parses, and then from that payload |
| `AuthContext.NoDotNoUser` | frontend/src/contexts/AuthContext.tsx:28 | a token without a dot never decodes |
| `AuthContext.ServerIssuedTokenUser` | backend/app/api/auth.py:38 | a token signed over `sub` alone decodes to that email and the username "User" |
| `AuthContext.AuthSession.InitAuth` | frontend/src/contexts/AuthContext.tsx:52-74 | authenticated iff a truthy stored token decodes to a user; loading ends |
| `AuthContext.AuthSession.Login` | frontend/src/contexts/AuthContext.tsx:76-107 | success caches the token, writes it to storage (an empty token removes the key) and authenticates with the decoded user (possibly null); failure changes neither and only ends loading |
| `AuthContext.AuthSession.Register` | frontend/src/contexts/AuthContext.tsx:109-140 | as login, including the storage write, but a token that does not decode yields the form's email and username |
| `AuthContext.AuthSession.Logout` | frontend/src/contexts/AuthContext.tsx:142-154 | the token is cleared from cache and storage and the state reset |
| `RegisterPage.RegistrationError` | frontend/src/pages/RegisterPage.tsx:33-41 | no error iff the passwords match and have at least 8 characters; a mismatch is reported first |
| `RegisterPage.ValidationOrder` | frontend/src/pages/RegisterPage.tsx:33-41 | a short mismatched password reports the mismatch; a matching 8-character password passes |
| `RegisterPage.RegisterForm.BeginSubmit` | frontend/src/pages/RegisterPage.tsx:29-43 | the error is cleared; a failed check sets its message and sends nothing; otherwise submitting starts and the request is sent |
| `RegisterPage.RegisterForm.FinishSubmit` | frontend/src/pages/RegisterPage.tsx:44-49 | submitting ends and the dashboard opens iff registration succeeded |
| `LoginPage.LoginRequestFor` | frontend/src/pages/LoginPage.tsx:28 | a request is sent iff both fields are filled in, with exactly those fields |
| `LoginPage.LoginForm.BeginSubmit` | frontend/src/pages/LoginPage.tsx:26-31 | submitting starts exactly when a request is sent |
| `LoginPage.LoginForm.FinishSubmit` | frontend/src/pages/LoginPage.tsx:31-36 | submitting ends and the dashboard opens iff login succeeded |
| `DashboardPage.TotalChunks` | frontend/src/pages/DashboardPage.tsx:45 | the total of an empty listing is 0 and no document has more chunks than the total |
| `DashboardPage.TotalChunksAppend` | frontend/src/pages/DashboardPage.tsx:45 | the chunk total adds up over any split of the listing |
| `DashboardPage.TotalChunksCons` | frontend/src/pages/DashboardPage.tsx:45 | each document contributes its chunk count once |
| `DashboardPage.ComputeStats` | frontend/src/pages/DashboardPage.tsx:38-47 | the document count is the listing's length; the chunk count is the sum of the documents' chunk counts (`TotalChunks`); the chat count is the history's length, or 0 when the history request fails |
| `DashboardPage.Dashboard.FetchStats` | frontend/src/pages/DashboardPage.tsx:36-53 | the counters are set when the listing succeeds and kept when it fails; loading ends |
| `DashboardPage.Dashboard.HandleUploadComplete` | frontend/src/pages/DashboardPage.tsx:58-66 | document and chunk counters are recomputed, the chat counter kept, and absent counters stay absent |
| `AuthApi.FindByEmail` | backend/app/api/auth.py:16 | a user is found iff one has the email, and the one found has it |
| `AuthApi.FindByEmailUnique` | backend/app/api/auth.py:56 | with unique emails the lookup returns the one user holding the email |
| `AuthApi.IssueToken` | backend/app/api/auth.py:38-46 | the response is a token signed over the email, of type "bearer" |
| `AuthApi.Login` | backend/app/api/auth.py:49-84 | a token is issued iff the user exists and the password verifies; both failures are the same 401 |
| `AuthApi.UserStore.Register` | backend/app/api/auth.py:9-46 | a known email gets 400 and nothing is stored; otherwise one active user with the hashed password is added and a token issued; emails stay unique (one request at a time) |
| `AuthApi.RegisteredUserCanLogIn` | backend/app/api/auth.py:24-84 | a freshly registered user can log in with their password when the checker accepts a password against its own hash |
| `AuthApi.FindAfterAppend` | backend/app/api/auth.py:35 | a newly inserted user is found by their email |
| `ChatApi.OwnedBy` | backend/app/api/chat.py:70-71 | the history query selects exactly the user's entries |
| `ChatApi.Insert` | backend/app/api/chat.py:72 | inserting keeps newest-first order and adds exactly the entry |
| `ChatApi.SortNewestFirst` | backend/app/api/chat.py:72 | sorting gives a newest-first permutation of the entries |
| `ChatApi.Newest` | backend/app/api/chat.py:70-74 | the listing has min(limit, number of the user's entries) entries |
| `ChatApi.NewestIsOwnedAndOrdered` | backend/app/api/chat.py:70-74 | the listing holds only the user's stored entries, newest first |
| `ChatApi.NewestAreTheNewest` | backend/app/api/chat.py:72-74 | no entry of the user left out is newer than one listed |
| `ChatApi.StrictlyNewestListedFirst` | backend/app/api/chat.py:32-41 | an exchange newer than all of the user's others heads the listing |
| `ChatApi.AsItem` | backend/app/api/chat.py:77-78 | the record carries every field of the entry, with the id rendered as a string |
| `ChatApi.ChatStore.Query` | backend/app/api/chat.py:10-56 | an answer is recorded as exactly one entry and returned; a pipeline error records nothing and becomes a 500 with "Error processing query: " + its message |
| `ChatApi.ChatStore.History` | backend/app/api/chat.py:58-82 | the user's newest min(limit, count) exchanges, newest first, each the stored entry with its id rendered |
| `ChatApi.RenderIds` | backend/app/api/chat.py:77-78 | each entry is kept with its ObjectId replaced by its string form, in order |
| `ChatApi.AskThenList` | backend/app/api/chat.py:10-82 | a query succeeds iff the pipeline answered, and then the next listing starts with that exchange |
| `DocumentsApi.DocumentId` | backend/app/api/documents.py:33 | a document id starts with the owner's id and '_' |
| `DocumentsApi.JoinPath` | backend/app/api/documents.py:36-39 | `os.path.join` on POSIX: the result ends with the name; an absolute name replaces the directory, any other follows it |
| `DocumentsApi.UploadPath` | backend/app/api/documents.py:36-39 | the upload path is the joined document id and ends in .pdf |
| `DocumentsApi.UploadPathDirectlyInIff` | backend/app/api/documents.py:33-39 | the file lands directly in ./uploads iff the document id (so the user's email) holds no '/' |
| `DocumentsApi.AbsoluteUserEscapesUploadDir` | backend/app/api/documents.py:33-39 | a user id starting with '/' (such as "/srv@x.io") puts the file at that absolute path, outside ./uploads |
| `DocumentsApi.UploadPathInjective` | backend/app/api/documents.py:36-39 | different documents are stored under different paths |
| `DocumentsApi.FindOwned` | backend/app/api/documents.py:112-115 | a record is found iff one has both the id and the owner |
| `DocumentsApi.RemoveId` | backend/app/api/documents.py:130 | deleting by id keeps exactly the records with other ids |
| `DocumentsApi.RemoveIdRemovesOne` | backend/app/api/documents.py:130 | with unique ids, deleting a stored id removes exactly one record and ids stay unique |
| `DocumentsApi.RemoveIdAbsent` | backend/app/api/documents.py:130 | deleting an absent id changes nothing |
| `DocumentsApi.OwnedBy` | backend/app/api/documents.py:94 | the listing query selects exactly the user's records |
| `DocumentsApi.OwnedByAppend` | backend/app/api/documents.py:94 | a new record of the user is listed after the older ones |
| `DocumentsApi.DocumentStore.Upload` | backend/app/api/documents.py:14-83 | a non-.pdf name gets 400 and nothing is written; a failed open (outside the `try`) gives an unhandled 500 and nothing is written; a processing failure removes the file and gives 500; a stored id fails on insert and leaves the file; otherwise one record is added at `UploadPath` and the reply returned |
| `DocumentsApi.DocumentStore.SaveAndRecord` | backend/app/api/documents.py:41-83 | once the path is open: a processing failure removes the file and gives 500; a stored id fails on insert and leaves the file; otherwise one record with that path is added and the reply returned |
| `DocumentsApi.DocumentStore.List` | backend/app/api/documents.py:85-99 | the first 100 of the user's records in stored order, and nothing of anyone else's |
| `DocumentsApi.DocumentStore.Delete` | backend/app/api/documents.py:101-138 | a missing or foreign document gets 404 and nothing changes; otherwise exactly its record and its file are removed |
| `DocumentsApi.UploadThenList` | backend/app/api/documents.py:64-99 | a document just uploaded is listed for its owner when they had fewer than 100 |
| `Rag.CollectionName` | backend/app/core/rag.py:78 | "user_" + the id with '@' and '.' read as '_'; the name has no '@' or '.' |
| `Rag.SameCollectionIff` | backend/app/core/rag.py:124 | two users share a collection iff their ids agree once '@' and '.' become '_' |
| `Rag.DistinctUsersShareCollection` | backend/app/core/rag.py:78-86 | "x.y@mail.com" and "x_y@mail.com" get the same collection |
| `Rag.Concat` | backend/app/core/rag.py:44-45 | no pages give "", and the text ends with the last page |
| `Rag.ConcatAppend` | backend/app/core/rag.py:44-45 | the extracted text of two page runs is the two texts joined |
| `Rag.ConcatHoldsPage` | backend/app/core/rag.py:44-45 | every page's text appears whole, at the offset given by the pages before it |
| `Rag.ExtractText` | backend/app/core/rag.py:39-47 | the extracted text is the pages' texts joined in page order |
| `Rag.DecimalString` | backend/app/core/rag.py:89 | the decimal rendering is non-empty and all digits, one digit iff below 10 |
| `Rag.DecimalStringInjective` | backend/app/core/rag.py:89 | different numbers render differently |
| `Rag.ChunkId` | backend/app/core/rag.py:89 | a chunk id starts with the document id and "_chunk_" |
| `Rag.ChunkIdsDistinct` | backend/app/core/rag.py:89 | the chunks of one document get different ids |
| `Rag.NewChunks` | backend/app/core/rag.py:89-104 | one stored chunk per split chunk, with id `ChunkId(document, index)`, its text, the document id, its index and the user id |
| `Rag.NewChunksHaveDistinctIds` | backend/app/core/rag.py:89 | a document's new chunks have pairwise distinct ids |
| `Rag.WhereFor` | backend/app/core/rag.py:132-134 | a filter is used iff the document id list is given and non-empty, and it names exactly those ids |
| `Rag.Sources` | backend/app/core/rag.py:145 | the sources are duplicate-free and are exactly the hits' document ids |
| `Rag.SourcesWithinSelection` | backend/app/core/rag.py:132-145 | when the search honours the filter, every source is a selected document |
| `Rag.VectorStore.ProcessPdf` | backend/app/core/rag.py:54-108 | the user's collection is fetched or created (keeping its first owner), the document's chunks appended, and their number returned |
| `Rag.VectorStore.Query` | backend/app/core/rag.py:110-179 | a user without a collection gets "No documents found for user " + id; otherwise the answer and the hits' sources |
| `Rag.UploadThenQueryAsOther` | backend/app/core/rag.py:124-129 | after one user's upload, a user with a colliding name queries without error and their collection holds the first user's chunks |

## Left out

- Timers and interleaving: the `setTimeout` stagger and the 200 ms interval are not run. Each start, tick, success and error is a separate step the environment may take in any order. The schedule is returned as data.
- React's render cycle: state updates apply at once. The length captured by the upload callback is the explicit `renderedCount` parameter.
- Toasts, console output and scrolling: only the failure toasts of `ChatInterface`, `DocumentList` and the upload (a flag, or the upload error text) and the per-file rejection toasts are modelled. Success toasts ('Upload successful', 'Document deleted', 'Welcome back!', 'Account created!', 'Logged out') and `AuthContext`'s failure toasts ('Login failed', 'Registration failed') are not.
- The dashboard's upload-complete callback (`onUploadComplete`) and the list refresh trigger: not modelled as calls, only their effects (`DashboardPage.Dashboard.HandleUploadComplete`, `DocumentList.DocumentListView.FinishFetch`).
- `toLowerCase` is modelled for ASCII letters only. `trim` is modelled for ASCII white space, line terminators, U+00A0 and U+FEFF, not the other Unicode space separators.
- `file.size` and string lengths are counted in Dafny characters, not bytes or UTF-16 code units.
- The HTTP transport, axios and the browser's `window.location`: the response interceptor receives the status, detail, transport message and current path as parameters. A `detail` that is not a string (FastAPI's validation error list) is not modelled.
- JWT details:
  - base64 and JSON decoding of the payload are a parameter;
  - signing, expiry and signature checking belong to a security module that is not part of this model;
  - the `/auth/me` endpoint and the dependency that reads the current user from a token are not part of this model.
- Password hashing and checking are parameters. `AuthApi.RegisteredUserCanLogIn` assumes the checker accepts a password against its own hash.
- MongoDB:
  - inserts and deletes are sequence updates;
  - ObjectIds and clock readings are parameters;
  - the order of entries with equal timestamps is one fixed order;
  - a `find` without a sort (the document listing) is taken to return records in insertion order, which MongoDB does not guarantee; `DocumentsApi.DocumentStore.List` and `DocumentsApi.OwnedByAppend` rely on it;
  - a non-positive history `limit` is excluded, because its meaning lies in the driver's `limit` and `to_list`;
  - database errors other than a duplicate document id are not modelled.
- Server handlers run as one atomic step each. In the source a handler awaits between its reads and its writes, and no unique index exists on the users' email. So two concurrent registrations with the same email can both pass the check in `AuthApi.UserStore.Register` and both insert; the model does not capture that interleaving, and its "emails stay unique" holds for one request at a time only.
- `ChatApi.ChatStore.Query`: takes the pipeline's outcome as input. A failing history insert, which the same handler would also answer with a 500, is not modelled.
- `DocumentsApi.DocumentStore.Upload`: the processing outcome is a parameter, so the model does not connect the chunks the vector store received with the record. Whether opening the upload path succeeds is the parameter `saved`; the model does not know which directories exist. Reading the uploaded bytes and creating the upload directory are not modelled.
- PDF reading, the text splitter, the embedding model, the similarity search (`top_k`) and the language model are parameters or left out.
  - The prompt text and generation settings are not modelled.
  - The vector collection's `add` is modelled as an append. Its handling of ids already present is not modelled.
  - Collection name rules the vector store enforces are not modelled (the rule itself and the failure it raises).
- `Rag.Sources`: Python's `set` has no defined order. The model keeps first-occurrence order, and its contract states only that there are no duplicates and what the elements are.
- Component state not on any modelled path: the drag-over flag, the password-visibility toggles, the search text field (it is the `query` parameter of `DocumentList.FilterDocs`) and the intermediate `isLoading` value that `AuthContext` sets before the awaited call. That value is overwritten in both branches, so only the final value is modelled.
- Token payload fields that are not strings: in the source a truthy non-string `email` makes `split('@')` throw, and `decodeToken` then returns null. The model's payload holds string fields only.
- The client's `Document` records are taken as the server sends them. How the server's `_id` alias is serialised is not modelled.
