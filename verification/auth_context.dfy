// The client's session state (frontend/src/contexts/AuthContext.tsx):
// reading the user out of a token, and the four transitions of the
// `AuthState` record (startup, login, registration, logout).
//
// The base64 and JSON decoding of the token's middle piece is a parameter
// `parse`: `None` stands for any exception thrown while decoding or
// parsing, `Some(p)` for the parsed object's string fields (a field that is
// not a string is not modelled).

module AuthContext {
  import opened Common
  import opened ApiTypes
  import opened ApiClient

  const DefaultUsername: string := "User"

  datatype Payload = Payload(email: Option<string>, sub: Option<string>, username: Option<string>, name: Option<string>)

  /** `decoded.email || decoded.sub || ''`. */
  function EmailOf(p: Payload): (r: string)
    ensures Truthy(p.email) ==> r == p.email.value
    ensures !Truthy(p.email) && Truthy(p.sub) ==> r == p.sub.value
    ensures !Truthy(p.email) && !Truthy(p.sub) ==> r == ""
  {
    if Truthy(p.email) then p.email.value
    else if Truthy(p.sub) then p.sub.value
    else ""
  }

  /** `decoded.email?.split('@')[0]`. */
  function EmailLocalPart(p: Payload): (r: Option<string>)
    ensures r.Some? <==> p.email.Some?
    ensures r.Some? ==> r.value <= p.email.value && '@' !in r.value
    ensures r.Some? && '@' in p.email.value ==> p.email.value[|r.value|] == '@'
  {
    match p.email
    case None => None
    case Some(e) => Some(BeforeFirst(e, '@'))
  }

  /** `decoded.username || decoded.name || decoded.email?.split('@')[0] || 'User'`. */
  function UsernameOf(p: Payload): (r: string)
    ensures r != ""
    ensures Truthy(p.username) ==> r == p.username.value
    ensures !Truthy(p.username) && Truthy(p.name) ==> r == p.name.value
    ensures !Truthy(p.username) && !Truthy(p.name) && Truthy(EmailLocalPart(p)) ==>
              r == EmailLocalPart(p).value && '@' !in r && r <= p.email.value
    ensures !Truthy(p.username) && !Truthy(p.name) && !Truthy(EmailLocalPart(p)) ==> r == DefaultUsername
  {
    if Truthy(p.username) then p.username.value
    else if Truthy(p.name) then p.name.value
    else if Truthy(EmailLocalPart(p)) then EmailLocalPart(p).value
    else DefaultUsername
  }

  /** Without a name field, the username comes from the email: the fixed
      fallback when the email is absent, empty or starts with '@', and the
      whole email when it holds no '@'. */
  lemma UsernameFromEmail(p: Payload)
    requires !Truthy(p.username) && !Truthy(p.name)
    ensures p.email.None? || p.email.value == "" || p.email.value[0] == '@' ==> UsernameOf(p) == DefaultUsername
    ensures p.email.Some? && p.email.value != "" && '@' !in p.email.value ==> UsernameOf(p) == p.email.value
  {
    if p.email.Some? && p.email.value != "" && '@' !in p.email.value {
      assert |BeforeFirst(p.email.value, '@')| == |p.email.value|;
    }
  }

  /** `decodeToken`: the user read from the token's second dot-separated
      piece, or null when the piece is missing or cannot be decoded. */
  function DecodeToken(token: string, parse: string -> Option<Payload>): (r: Option<User>)
    ensures r.Some? <==> SecondPiece(token, '.').Some? && parse(SecondPiece(token, '.').value).Some?
    ensures r.Some? ==> var p := parse(SecondPiece(token, '.').value).value;
                        r.value == User(EmailOf(p), UsernameOf(p))
  {
    match SecondPiece(token, '.')
    case None => None
    case Some(piece) =>
      match parse(piece)
      case None => None
      case Some(p) => Some(User(EmailOf(p), UsernameOf(p)))
  }

  /** A token without a dot never yields a user, whatever the parser does. */
  lemma NoDotNoUser(token: string, parse: string -> Option<Payload>)
    requires '.' !in token
    ensures DecodeToken(token, parse) == None
  {
  }

  /** The server signs its tokens over the claim `sub` (the email) alone, so
      every token it issues decodes to that email and the fixed username:
      the session's user never carries the username given at registration. */
  lemma ServerIssuedTokenUser(token: string, parse: string -> Option<Payload>, email: string)
    requires SecondPiece(token, '.').Some?
    requires parse(SecondPiece(token, '.').value) == Some(Payload(None, Some(email), None, None))
    requires email != ""
    ensures DecodeToken(token, parse) == Some(User(email, DefaultUsername))
  {
  }

  class AuthSession {
    const tokens: TokenStore
    var user: Option<User>
    var isAuthenticated: bool
    var isLoading: bool

    constructor (tokens: TokenStore)
      ensures this.tokens == tokens
      ensures user == None && !isAuthenticated && isLoading
    {
      this.tokens := tokens;
      user, isAuthenticated, isLoading := None, false, true;
    }

    /** `initAuth`: authenticated exactly when a truthy token is found and it
        decodes to a user; loading ends in every case. */
    method InitAuth(parse: string -> Option<Payload>)
      modifies this, tokens`authToken
      ensures tokens.authToken == old(tokens.CurrentToken())
      ensures var t := old(tokens.CurrentToken());
              isAuthenticated <==> Truthy(t) && DecodeToken(t.value, parse).Some?
      ensures var t := old(tokens.CurrentToken());
              user == (if Truthy(t) then DecodeToken(t.value, parse) else None)
      ensures !isLoading
    {
      var token := tokens.GetAuthToken();
      if Truthy(token) {
        var decoded := DecodeToken(token.value, parse);
        if decoded.Some? {
          user, isAuthenticated, isLoading := decoded, true, false;
          return;
        }
      }
      user, isAuthenticated, isLoading := None, false, false;
    }

    /** `login` once the request settles. On success the token is cached and
        written to storage (an empty token removes the stored one), and the
        session is authenticated with whatever the token decodes to (null
        included); on failure only loading ends. */
    method Login(outcome: Outcome<AuthResponse>, parse: string -> Option<Payload>) returns (ok: bool)
      modifies this, tokens
      ensures ok <==> outcome.Resolved?
      ensures !isLoading
      ensures outcome.Resolved? ==>
        && tokens.authToken == Some(outcome.value.accessToken)
        && (outcome.value.accessToken != "" ==>
              tokens.storage == old(tokens.storage)[TokenKey := outcome.value.accessToken])
        && (outcome.value.accessToken == "" ==> tokens.storage == old(tokens.storage) - {TokenKey})
        && isAuthenticated
        && user == DecodeToken(outcome.value.accessToken, parse)
      ensures outcome.Rejected? ==>
        && user == old(user) && isAuthenticated == old(isAuthenticated)
        && tokens.authToken == old(tokens.authToken) && tokens.storage == old(tokens.storage)
    {
      isLoading := true;
      match outcome {
        case Resolved(response) =>
          tokens.SetAuthToken(Some(response.accessToken));
          user, isAuthenticated, isLoading := DecodeToken(response.accessToken, parse), true, false;
          ok := true;
        case Rejected(_) =>
          isLoading := false;
          ok := false;
      }
    }

    /** `register` once the request settles: as `Login`, except that a token
        that does not decode leaves the user the form described. */
    method Register(data: RegisterRequest, outcome: Outcome<AuthResponse>, parse: string -> Option<Payload>) returns (ok: bool)
      modifies this, tokens
      ensures ok <==> outcome.Resolved?
      ensures !isLoading
      ensures outcome.Resolved? ==>
        && tokens.authToken == Some(outcome.value.accessToken)
        && (outcome.value.accessToken != "" ==>
              tokens.storage == old(tokens.storage)[TokenKey := outcome.value.accessToken])
        && (outcome.value.accessToken == "" ==> tokens.storage == old(tokens.storage) - {TokenKey})
        && isAuthenticated
        && user.Some?
        && user == (match DecodeToken(outcome.value.accessToken, parse)
                    case Some(u) => Some(u)
                    case None => Some(User(data.email, data.username)))
      ensures outcome.Rejected? ==>
        && user == old(user) && isAuthenticated == old(isAuthenticated)
        && tokens.authToken == old(tokens.authToken) && tokens.storage == old(tokens.storage)
    {
      isLoading := true;
      match outcome {
        case Resolved(response) =>
          tokens.SetAuthToken(Some(response.accessToken));
          var decoded := DecodeToken(response.accessToken, parse);
          var newUser := if decoded.Some? then decoded.value else User(data.email, data.username);
          user, isAuthenticated, isLoading := Some(newUser), true, false;
          ok := true;
        case Rejected(_) =>
          isLoading := false;
          ok := false;
      }
    }

    /** `logout`: the token is cleared and the state reset. */
    method Logout()
      modifies this, tokens
      ensures tokens.authToken == None && tokens.storage == old(tokens.storage) - {TokenKey}
      ensures user == None && !isAuthenticated && !isLoading
    {
      tokens.SetAuthToken(None);
      user, isAuthenticated, isLoading := None, false, false;
    }
  }
}
