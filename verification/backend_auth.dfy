// The server's account endpoints (backend/app/api/auth.py) over an
// in-memory users collection. Password hashing, password checking and
// token signing belong to a security module that is not part of this
// model; they are parameters.

module AuthApi {
  import opened Common
  import opened Http

  const DuplicateEmailDetail: string := "Email already registered"
  const BadCredentialsDetail: string := "Incorrect email or password"
  const BearerTokenType: string := "bearer"

  datatype UserCreate = UserCreate(email: string, username: string, password: string)
  datatype UserLogin = UserLogin(email: string, password: string)
  datatype UserRecord = UserRecord(email: string, username: string, hashedPassword: string, createdAt: int, isActive: bool)
  /** The claims an access token is signed over. */
  datatype Claims = Claims(sub: string)
  datatype TokenResponse = TokenResponse(accessToken: string, tokenType: string)

  /** `find_one({"email": email})`: the first user with that email. */
  function FindByEmail(users: seq<UserRecord>, email: string): (r: Option<UserRecord>)
    ensures r.Some? ==> r.value in users && r.value.email == email
    ensures r.None? <==> forall u :: u in users ==> u.email != email
  {
    if users == [] then None
    else if users[0].email == email then Some(users[0])
    else FindByEmail(users[1..], email)
  }

  predicate UniqueEmails(users: seq<UserRecord>)
  {
    forall i, j :: 0 <= i < j < |users| ==> users[i].email != users[j].email
  }

  /** With unique emails, the lookup finds the one user holding the email. */
  lemma FindByEmailUnique(users: seq<UserRecord>, u: UserRecord)
    requires UniqueEmails(users) && u in users
    ensures FindByEmail(users, u.email) == Some(u)
  {
    var i :| 0 <= i < |users| && users[i] == u;
    var found := FindByEmail(users, u.email).value;
    var j :| 0 <= j < |users| && users[j] == found;
    assert i == j;
  }

  /** The response both endpoints return: a token signed over the email. */
  function IssueToken(email: string, sign: Claims -> string): (r: TokenResponse)
    ensures r.accessToken == sign(Claims(email)) && r.tokenType == BearerTokenType
  {
    TokenResponse(sign(Claims(email)), BearerTokenType)
  }

  /** `login`: a token exactly when the user exists and the password checks
      out; an unknown email and a wrong password fail identically. */
  function Login(users: seq<UserRecord>, credentials: UserLogin,
                 verify: (string, string) -> bool, sign: Claims -> string): (r: Result<TokenResponse>)
    ensures r.Ok? <==> FindByEmail(users, credentials.email).Some?
                        && verify(credentials.password, FindByEmail(users, credentials.email).value.hashedPassword)
    ensures r.Ok? ==> r.value == IssueToken(credentials.email, sign)
    ensures r.Err? ==> r.error == HttpError(Unauthorized, BadCredentialsDetail)
  {
    match FindByEmail(users, credentials.email)
    case None => Err(HttpError(Unauthorized, BadCredentialsDetail))
    case Some(user) =>
      if !verify(credentials.password, user.hashedPassword) then Err(HttpError(Unauthorized, BadCredentialsDetail))
      else Ok(IssueToken(credentials.email, sign))
  }

  class UserStore {
    var users: seq<UserRecord>

    ghost predicate Valid()
      reads this
    {
      UniqueEmails(users)
    }

    constructor ()
      ensures Valid() && users == []
    {
      users := [];
    }

    /** `register`: a known email is refused and nothing is stored; otherwise
        one active user with the hashed password is added and a token issued. */
    method Register(user: UserCreate, now: int, hash: string -> string, sign: Claims -> string)
      returns (r: Result<TokenResponse>)
      requires Valid()
      modifies this
      ensures Valid()
      ensures FindByEmail(old(users), user.email).Some? ==>
                r == Err(HttpError(BadRequest, DuplicateEmailDetail)) && users == old(users)
      ensures FindByEmail(old(users), user.email).None? ==>
                && users == old(users) + [UserRecord(user.email, user.username, hash(user.password), now, true)]
                && r == Ok(IssueToken(user.email, sign))
    {
      var existing := FindByEmail(users, user.email);
      if existing.Some? {
        return Err(HttpError(BadRequest, DuplicateEmailDetail));
      }
      var record := UserRecord(user.email, user.username, hash(user.password), now, true);
      users := users + [record];
      r := Ok(IssueToken(user.email, sign));
    }
  }

  /** A freshly registered account can log in with its password, provided
      the password checker accepts a password against its own hash. */
  lemma RegisteredUserCanLogIn(users: seq<UserRecord>, user: UserCreate, now: int,
                               hash: string -> string, verify: (string, string) -> bool, sign: Claims -> string)
    requires FindByEmail(users, user.email).None?
    requires verify(user.password, hash(user.password))
    ensures Login(users + [UserRecord(user.email, user.username, hash(user.password), now, true)],
                  UserLogin(user.email, user.password), verify, sign)
            == Ok(IssueToken(user.email, sign))
  {
    var created := UserRecord(user.email, user.username, hash(user.password), now, true);
    FindAfterAppend(users, created);
  }

  lemma {:induction false} FindAfterAppend(users: seq<UserRecord>, u: UserRecord)
    requires FindByEmail(users, u.email).None?
    ensures FindByEmail(users + [u], u.email) == Some(u)
  {
    if users != [] {
      assert (users + [u])[1..] == users[1..] + [u];
      FindAfterAppend(users[1..], u);
    }
  }
}
