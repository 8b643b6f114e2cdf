// The client's request layer (frontend/src/services/api.ts): the cached
// credential in front of the browser's key/value storage, the header the
// request interceptor adds, and the rule the response interceptor applies
// to every failed request. The HTTP transport itself is not modelled.

module ApiClient {
  import opened Common
  import opened ApiTypes

  const TokenKey: string := "studymate_token"
  const AuthorizationHeader: string := "Authorization"
  const UnexpectedErrorMessage: string := "An unexpected error occurred"
  const LoginPath: string := "/login"
  const RegisterPath: string := "/register"
  const Unauthorized: int := 401

  /** `localStorage.getItem(key)`: null when the key is absent. */
  function StoredValue(storage: map<string, string>, key: string): (r: Option<string>)
    ensures r.Some? <==> key in storage
    ensures r.Some? ==> r.value == storage[key]
  {
    if key in storage then Some(storage[key]) else None
  }

  /** The header value the request interceptor sets: `Bearer <token>` when a
      truthy token is present, nothing otherwise. */
  function BearerValue(token: Option<string>): (r: Option<string>)
    ensures r.Some? <==> Truthy(token)
    ensures r.Some? ==> r.value == "Bearer " + token.value && StartsWith(r.value, "Bearer ")
  {
    if Truthy(token) then Some("Bearer " + token.value) else None
  }

  /** The headers sent with a request carrying `token`. */
  function WithAuthorization(headers: map<string, string>, token: Option<string>): (r: map<string, string>)
    ensures Truthy(token) ==> r == headers[AuthorizationHeader := "Bearer " + token.value]
    ensures !Truthy(token) ==> r == headers
  {
    match BearerValue(token)
    case Some(v) => headers[AuthorizationHeader := v]
    case None => headers
  }

  /** The message of a failed request: the server's `detail`, else the
      transport's message, else a fixed text; it is never empty. */
  function ErrorMessage(detail: Option<string>, transportMessage: Option<string>): (r: string)
    ensures r != ""
    ensures Truthy(detail) ==> r == detail.value
    ensures !Truthy(detail) && Truthy(transportMessage) ==> r == transportMessage.value
    ensures !Truthy(detail) && !Truthy(transportMessage) ==> r == UnexpectedErrorMessage
  {
    if Truthy(detail) then detail.value
    else if Truthy(transportMessage) then transportMessage.value
    else UnexpectedErrorMessage
  }

  /** A 401 sends the browser to the login page unless it already shows the
      login or the registration page. */
  predicate RedirectsOn401(pathname: string): (r: bool)
    ensures r ==> !StartsWith(pathname, LoginPath) && !StartsWith(pathname, RegisterPath)
  {
    !Contains(pathname, LoginPath) && !Contains(pathname, RegisterPath)
  }

  lemma NoRedirectFromAuthPages(prefix: string, suffix: string)
    ensures !RedirectsOn401(prefix + LoginPath + suffix)
    ensures !RedirectsOn401(prefix + RegisterPath + suffix)
  {
    var p := prefix + LoginPath + suffix;
    assert p[|prefix|..|prefix| + |LoginPath|] == LoginPath;
    ContainsAt(p, LoginPath, |prefix|);
    var q := prefix + RegisterPath + suffix;
    assert q[|prefix|..|prefix| + |RegisterPath|] == RegisterPath;
    ContainsAt(q, RegisterPath, |prefix|);
  }

  /** The module-level token cache together with the storage it fronts. */
  class TokenStore {
    var authToken: Option<string>
    var storage: map<string, string>

    constructor (initialStorage: map<string, string>)
      ensures authToken == None && storage == initialStorage
    {
      authToken := None;
      storage := initialStorage;
    }

    /** The token `getAuthToken` would return now: the cached one when it is
        truthy, otherwise whatever storage holds. */
    function CurrentToken(): Option<string>
      reads this
    {
      if Truthy(authToken) then authToken else StoredValue(storage, TokenKey)
    }

    /** `setAuthToken`: the cache takes the value as given; storage keeps a
        truthy token and drops the key otherwise (null or ''). */
    method SetAuthToken(token: Option<string>)
      modifies this
      ensures authToken == token
      ensures Truthy(token) ==> storage == old(storage)[TokenKey := token.value]
      ensures !Truthy(token) ==> storage == old(storage) - {TokenKey}
    {
      authToken := token;
      if Truthy(token) {
        storage := storage[TokenKey := token.value];
      } else {
        storage := storage - {TokenKey};
      }
    }

    /** `getAuthToken`: storage is read only when the cache is falsy, and what
        it holds is cached. */
    method GetAuthToken() returns (token: Option<string>)
      modifies this`authToken
      ensures token == old(CurrentToken()) && authToken == token
      ensures Truthy(old(authToken)) ==> authToken == old(authToken)
    {
      if !Truthy(authToken) {
        authToken := StoredValue(storage, TokenKey);
      }
      token := authToken;
    }

    /** The request interceptor. */
    method PrepareRequest(headers: map<string, string>) returns (sent: map<string, string>)
      modifies this`authToken
      ensures sent == WithAuthorization(headers, old(CurrentToken()))
      ensures authToken == old(CurrentToken())
    {
      var token := GetAuthToken();
      sent := WithAuthorization(headers, token);
    }

    /** The response interceptor's error branch: the error is always passed on
        as an `ApiError`; a 401 also clears the token and, away from the
        login and registration pages, redirects to the login page. */
    method OnResponseError(status: Option<int>, detail: Option<string>, transportMessage: Option<string>, pathname: string)
      returns (rejected: ApiError, redirectTo: Option<string>)
      modifies this
      ensures rejected == ApiError(ErrorMessage(detail, transportMessage), status)
      ensures status == Some(Unauthorized) ==> authToken == None && storage == old(storage) - {TokenKey}
      ensures status != Some(Unauthorized) ==> authToken == old(authToken) && storage == old(storage)
      ensures redirectTo.Some? <==> status == Some(Unauthorized) && RedirectsOn401(pathname)
      ensures redirectTo.Some? ==> redirectTo.value == LoginPath
    {
      rejected := ApiError(ErrorMessage(detail, transportMessage), status);
      redirectTo := None;
      if status == Some(Unauthorized) {
        SetAuthToken(None);
        if RedirectsOn401(pathname) {
          redirectTo := Some(LoginPath);
        }
      }
    }
  }

  /** Setting a token and reading it back: null and any non-empty token come
      back as set; the empty string comes back as null, because the cache
      treats it as absent and storage never kept it. */
  method SetThenGet(store: TokenStore, token: Option<string>) returns (read: Option<string>)
    modifies store
    ensures read == (if Truthy(token) then token else None)
    ensures token == None || Truthy(token) ==> read == token
  {
    store.SetAuthToken(token);
    read := store.GetAuthToken();
  }
}
