// The records the web client exchanges with the server
// (frontend/src/types/api.ts).

module ApiTypes {
  import opened Common

  /** A point in time as the server sends it (ISO text); never parsed here. */
  type Timestamp = string

  /** A citation attached to an answer. The server sends document-id
      strings while the client declares objects; the model keeps the
      value uninterpreted. */
  datatype SourceRef = SourceRef(raw: string)

  datatype User = User(email: string, username: string)

  datatype Document = Document(id: string, filename: string, uploadDate: Timestamp, numChunks: nat)

  datatype UploadResponse = UploadResponse(documentId: string, filename: string, chunks: nat)

  datatype ChatQuery = ChatQuery(message: string, documentIds: Option<seq<string>>)

  datatype ChatResponse = ChatResponse(answer: string, sources: seq<SourceRef>, timestamp: Timestamp)

  datatype ChatHistoryItem = ChatHistoryItem(question: string, answer: string, sources: seq<SourceRef>, timestamp: Timestamp)

  datatype LoginRequest = LoginRequest(email: string, password: string)

  datatype RegisterRequest = RegisterRequest(email: string, username: string, password: string)

  datatype AuthResponse = AuthResponse(accessToken: string, tokenType: string)

  /** The plain object the response interceptor rejects with. */
  datatype ApiError = ApiError(message: string, status: Option<int>)

  /** The outcome of one awaited request: the response body or the rejection. */
  datatype Outcome<T> = Resolved(value: T) | Rejected(error: ApiError)
}
