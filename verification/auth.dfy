/**
 * Registration, login and the current-user endpoint. Password hashing and checking
 * are library calls, passed in as `hash` and `verify`; the access token is abstract.
 */
module Auth {
  import opened Wrappers
  import opened Seqs
  import opened Schemas

  /** The verification status a new account starts with. */
  function InitialVerificationStatus(backgroundCheckAccepted: bool): string {
    if backgroundCheckAccepted then "verified-mock" else "pending"
  }

  /** The position of the first user registered with `email`. */
  function FindByEmail(users: seq<User>, email: string): Option<nat> {
    FindFirst(users, (u: User) => u.email == email)
  }

  datatype Registered = Registered(users: seq<User>, user: UserPublic)

  /** POST /auth/register: a new account for an email nobody has registered yet. */
  function Register(
    users: seq<User>, payload: UserCreate, hash: string -> string, newId: string, now: int): (r: Result<Registered>)
    ensures r.Err? <==> exists k :: 0 <= k < |users| && users[k].email == payload.email
    ensures r.Err? ==> r.error == ApiError(400, "Email already registered")
    ensures r.Ok? ==> |r.value.users| == |users| + 1 && r.value.users[..|users|] == users
    ensures r.Ok? ==>
              var u := r.value.users[|users|];
              && u.id == newId && u.name == payload.name && u.email == payload.email
              && u.hashedPassword == hash(payload.password) && u.zipCode == payload.zipCode
              && u.isHost == payload.isHost && u.phone == payload.phone && u.createdAt == now
              && u.backgroundCheckAccepted == payload.backgroundCheckAccepted
              && u.stripeSessionId.None?
              && r.value.user == ToUserPublic(u)
    ensures r.Ok? ==>
              var u := r.value.users[|users|];
              && (u.verificationStatus == Some("verified-mock") <==> payload.backgroundCheckAccepted)
              && (u.verificationStatus == Some("pending") <==> !payload.backgroundCheckAccepted)
  {
    match FindByEmail(users, payload.email)
    case Some(_) => Err(ApiError(400, "Email already registered"))
    case None =>
      var doc := User(
        newId, payload.name, payload.email, hash(payload.password), payload.zipCode,
        payload.isHost, payload.phone, now, payload.backgroundCheckAccepted,
        Some(InitialVerificationStatus(payload.backgroundCheckAccepted)), None);
      Ok(Registered(users + [doc], ToUserPublic(doc)))
  }

  /** Registering keeps emails unique across the store. */
  lemma RegisterKeepsEmailsUnique(users: seq<User>, payload: UserCreate, hash: string -> string, newId: string, now: int)
    requires forall i, j :: 0 <= i < j < |users| ==> users[i].email != users[j].email
    requires Register(users, payload, hash, newId, now).Ok?
    ensures var s := Register(users, payload, hash, newId, now).value.users;
            forall i, j :: 0 <= i < j < |s| ==> s[i].email != s[j].email
  {
    var s := Register(users, payload, hash, newId, now).value.users;
    forall i, j | 0 <= i < j < |s| ensures s[i].email != s[j].email {
      if j == |users| {
        assert s[i] == users[i];
      } else {
        assert s[i] == users[i] && s[j] == users[j];
      }
    }
  }

  /**
   * POST /auth/login: the same 400 for an unknown email and a wrong password; on
   * success a bearer token for the user's id.
   */
  function Login(users: seq<User>, email: string, password: string, verify: (string, string) -> bool): (r: Result<TokenResponse>)
    ensures r.Ok? <==> FindByEmail(users, email).Some? && verify(password, users[FindByEmail(users, email).value].hashedPassword)
    ensures r.Err? ==> r.error == ApiError(400, "Incorrect email or password")
    ensures r.Ok? ==>
              && r.value.accessToken.subject == users[FindByEmail(users, email).value].id
              && r.value.tokenType == "bearer"
  {
    match FindByEmail(users, email)
    case None => Err(ApiError(400, "Incorrect email or password"))
    case Some(i) =>
      if verify(password, users[i].hashedPassword) then
        Ok(TokenResponseWithDefaults(AccessToken(users[i].id)))
      else
        Err(ApiError(400, "Incorrect email or password"))
  }

  /** An unknown email and a wrong password cannot be told apart from the response. */
  lemma LoginFailuresLookAlike(users: seq<User>, unknown: string, known: string, password: string, verify: (string, string) -> bool)
    requires forall k :: 0 <= k < |users| ==> users[k].email != unknown
    requires FindByEmail(users, known).Some?
    requires !verify(password, users[FindByEmail(users, known).value].hashedPassword)
    ensures Login(users, unknown, password, verify) == Login(users, known, password, verify)
  {
  }

  /** GET /auth/me: the caller's own record in its public shape. */
  function Me(current: User): (p: UserPublic)
    ensures p.id == current.id && p.name == current.name && p.email == current.email
    ensures p.zipCode == current.zipCode && p.isHost == current.isHost && p.phone == current.phone
    ensures p.createdAt == current.createdAt && p.verificationStatus == current.verificationStatus
  {
    ToUserPublic(current)
  }

  /** After registering, `me` for the new account returns what registration returned. */
  lemma RegisterThenMe(users: seq<User>, payload: UserCreate, hash: string -> string, newId: string, now: int)
    requires Register(users, payload, hash, newId, now).Ok?
    ensures var r := Register(users, payload, hash, newId, now).value;
            Me(r.users[|users|]) == r.user
  {
  }

  /**
   * Right after registering, logging in with the same email and password issues a
   * token for the new account, provided the password check accepts its own hashes.
   */
  lemma RegisterThenLogin(
    users: seq<User>, payload: UserCreate, hash: string -> string, verify: (string, string) -> bool,
    newId: string, now: int)
    requires Register(users, payload, hash, newId, now).Ok?
    requires verify(payload.password, hash(payload.password))
    ensures var r := Register(users, payload, hash, newId, now).value;
            var t := Login(r.users, payload.email, payload.password, verify);
            t.Ok? && t.value.accessToken.subject == newId
  {
    var r := Register(users, payload, hash, newId, now).value;
    assert r.users[|users|].email == payload.email;
    assert FindByEmail(r.users, payload.email) == Some(|users|);
  }
}
