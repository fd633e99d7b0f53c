/**
 * Authentication on the server: reading the bearer token of a request and
 * finding its user, registering a new user, and signing a user in. Password
 * hashing and the token codec are parameters.
 */
module Auth {
  import opened Wrappers
  import opened Text
  import opened Http

  /** A document identifier: a plain string, or an ObjectId given by its hexadecimal text. */
  datatype DocId = StrId(s: string) | ObjectId(hex: string)

  datatype UserDoc = UserDoc(id: DocId, name: string, email: string, passwordHash: string)

  /** The user object the sign-up and sign-in routes answer with. */
  datatype UserResponse = UserResponse(id: string, name: string, email: string)

  datatype AuthReply = AuthReply(token: string, user: UserResponse)

  const NotAuthenticated := HttpError(401, "Not authenticated")
  const InvalidToken := HttpError(401, "Invalid token")
  const UserNotFound := HttpError(401, "User not found")
  const EmailTaken := HttpError(400, "Email already registered")
  const InvalidCredentials := HttpError(401, "Invalid credentials")

  const BearerPrefix := "Bearer "

  /** Python `str()` of a document identifier. */
  function IdText(id: DocId): string {
    match id
    case StrId(s) => s
    case ObjectId(hex) => hex
  }

  /** A `find_one` filter on one field of the users collection. */
  datatype Query = ById(id: DocId) | ByEmail(email: string)

  predicate Matches(u: UserDoc, q: Query) {
    match q
    case ById(id) => u.id == id
    case ByEmail(email) => u.email == email
  }

  /** The position of the first user the filter matches, as `find_one` finds it. */
  function FindOne(users: seq<UserDoc>, q: Query): (r: Option<nat>)
    ensures r.Some? ==> r.value < |users| && Matches(users[r.value], q)
    ensures r.Some? ==> forall k | 0 <= k < r.value :: !Matches(users[k], q)
    ensures r.None? <==> forall k | 0 <= k < |users| :: !Matches(users[k], q)
    decreases |users|
  {
    if users == [] then None
    else if Matches(users[0], q) then Some(0)
    else match FindOne(users[1..], q)
      case None => None
      case Some(k) => Some(k + 1)
  }

  /**
   * The token of an `Authorization` header that starts with "Bearer ": the
   * second space-separated field, which is "" for the bare prefix.
   */
  function BearerToken(header: string): (token: string)
    requires StartsWith(header, BearerPrefix)
  {
    SpaceAfterBearer(header);
    Split(header, " ")[1]
  }

  lemma SpaceAfterBearer(header: string)
    requires StartsWith(header, BearerPrefix)
    ensures IndexOf(header, " ") == Some(6)
    ensures Contains(header, " ")
  {
    assert header[6..7] == " ";
    assert OccursAt(header, " ", 6);
    forall k | 0 <= k < 6 ensures !OccursAt(header, " ", k) {
      OccursAtChar(header, ' ', k);
    }
  }

  /** The token is the text after the prefix, up to the next space. */
  lemma BearerTokenIsNextField(header: string)
    requires StartsWith(header, BearerPrefix)
    ensures BearerToken(header) == Before(header[7..], " ")
    ensures header == BearerPrefix ==> BearerToken(header) == ""
  {
    SpaceAfterBearer(header);
    SplitSecond(header, " ");
    if header == BearerPrefix {
      assert header[7..] == "";
    }
  }

  /** A token without spaces, sent after the prefix, is read back unchanged. */
  lemma BearerTokenRoundTrip(token: string)
    requires !Contains(token, " ")
    ensures StartsWith(BearerPrefix + token, BearerPrefix)
    ensures BearerToken(BearerPrefix + token) == token
  {
    var header := BearerPrefix + token;
    assert header[..7] == BearerPrefix;
    BearerTokenIsNextField(header);
    assert header[7..] == token;
  }

  /**
   * The header and token checks shared by both versions of the user lookup:
   * a missing or non-bearer header, then a token that does not decode to a
   * non-empty payload, are refused; otherwise the payload's `sub`, if any.
   */
  function TokenSubject(authorization: Option<string>, decode: string -> Option<map<string, string>>)
    : (r: Result<Option<string>, HttpError>)
    ensures (authorization.None? || !StartsWith(authorization.value, BearerPrefix)) ==> r == Err(NotAuthenticated)
    ensures authorization.Some? && StartsWith(authorization.value, BearerPrefix) ==>
      var payload := decode(BearerToken(authorization.value));
      && (r == Err(InvalidToken) <==> payload.None? || payload.value == map[])
      && (payload.Some? && payload.value != map[] ==>
            r == Ok(if "sub" in payload.value then Some(payload.value["sub"]) else None))
    ensures r.Err? ==> r.error in {NotAuthenticated, InvalidToken}
  {
    if authorization.None? || authorization.value == "" || !StartsWith(authorization.value, BearerPrefix) then
      Err(NotAuthenticated)
    else
      var payload := decode(BearerToken(authorization.value));
      if payload.None? || payload.value == map[] then Err(InvalidToken)
      else Ok(if "sub" in payload.value then Some(payload.value["sub"]) else None)
  }

  /**
   * `get_current_user` as written: the lookup compares the stored identifier
   * with the token's subject as a plain string (or with null when there is
   * no subject).
   */
  function GetCurrentUserAsWritten(authorization: Option<string>, decode: string -> Option<map<string, string>>,
                                   users: seq<UserDoc>): (r: Result<UserDoc, HttpError>)
    ensures r.Ok? ==> r.value in users && r.value.id.StrId? && TokenSubject(authorization, decode) == Ok(Some(r.value.id.s))
    ensures TokenSubject(authorization, decode).Err? ==> r == Err(TokenSubject(authorization, decode).error)
  {
    match TokenSubject(authorization, decode)
    case Err(e) => Err(e)
    case Ok(sub) =>
      var found := if sub.Some? then FindOne(users, ById(StrId(sub.value))) else None;
      if found.None? then Err(UserNotFound) else Ok(users[found.value])
  }

  /** Every stored user carries a generated ObjectId, as documents inserted by sign-up do. */
  predicate AllObjectIds(users: seq<UserDoc>) {
    forall k | 0 <= k < |users| :: users[k].id.ObjectId?
  }

  /** As written, no request is ever authenticated against a store of generated identifiers. */
  lemma AsWrittenNeverAuthenticates(authorization: Option<string>, decode: string -> Option<map<string, string>>,
                                    users: seq<UserDoc>)
    requires AllObjectIds(users)
    ensures GetCurrentUserAsWritten(authorization, decode, users).Err?
  {
  }

  /**
   * `get_current_user` as evidently intended: the subject is the text of an
   * ObjectId, and the user is looked up by that ObjectId.
   */
  function GetCurrentUser(authorization: Option<string>, decode: string -> Option<map<string, string>>,
                          users: seq<UserDoc>): (r: Result<UserDoc, HttpError>)
    ensures r.Ok? ==> r.value in users
    ensures r.Ok? ==> r.value.id.ObjectId? && TokenSubject(authorization, decode) == Ok(Some(r.value.id.hex))
    ensures TokenSubject(authorization, decode).Err? ==> r == Err(TokenSubject(authorization, decode).error)
    ensures r == Err(UserNotFound) <==>
      var sub := TokenSubject(authorization, decode);
      sub.Ok? && (sub.value.None? || forall k | 0 <= k < |users| :: users[k].id != ObjectId(sub.value.value))
    ensures r.Err? ==> r.error in {NotAuthenticated, InvalidToken, UserNotFound}
  {
    match TokenSubject(authorization, decode)
    case Err(e) => Err(e)
    case Ok(sub) =>
      var found := if sub.Some? then FindOne(users, ById(ObjectId(sub.value))) else None;
      if found.None? then Err(UserNotFound) else Ok(users[found.value])
  }

  /**
   * A stored user presenting a token whose subject is their identifier's text
   * is authenticated as themselves, where the source's lookup refuses them.
   */
  lemma TokenForStoredUser(users: seq<UserDoc>, i: nat, token: string, decode: string -> Option<map<string, string>>)
    requires i < |users| && AllObjectIds(users)
    requires forall a, b | 0 <= a < b < |users| :: users[a].id != users[b].id
    requires !Contains(token, " ")
    requires decode(token) == Some(map["sub" := IdText(users[i].id)])
    ensures GetCurrentUser(Some(BearerPrefix + token), decode, users) == Ok(users[i])
    ensures GetCurrentUserAsWritten(Some(BearerPrefix + token), decode, users) == Err(UserNotFound)
  {
    BearerTokenRoundTrip(token);
    var header, id := BearerPrefix + token, users[i].id;
    assert header != "";
    assert id == ObjectId(IdText(id));
    assert BearerToken(header) == token;
    var payload := decode(token).value;
    assert "sub" in payload && payload["sub"] == IdText(id);
    assert payload != map[];
    assert TokenSubject(Some(header), decode) == Ok(Some(IdText(id)));
    var found := FindOne(users, ById(id));
    assert found.Some? && users[found.value].id == users[i].id;
    assert found.value == i;
    assert FindOne(users, ById(StrId(IdText(id)))).None?;
  }

  /** The sign-in route: one identical refusal for an unknown email and a wrong password. */
  function Login(users: seq<UserDoc>, email: string, password: string,
                 verify: (string, string) -> bool, createToken: string -> string): (r: Result<AuthReply, HttpError>)
    ensures r.Ok? ==> r.value.token == createToken(r.value.user.id)
    ensures r.Ok? ==> exists k | 0 <= k < |users| ::
      && users[k].email == email
      && (forall j | 0 <= j < k :: users[j].email != email)
      && verify(password, users[k].passwordHash)
      && r.value.user == UserResponse(IdText(users[k].id), users[k].name, users[k].email)
    ensures r.Err? ==> r.error == InvalidCredentials
  {
    match FindOne(users, ByEmail(email))
    case None => Err(InvalidCredentials)
    case Some(k) =>
      var user := users[k];
      if !verify(password, user.passwordHash) then Err(InvalidCredentials)
      else
        var id := IdText(user.id);
        Ok(AuthReply(createToken(id), UserResponse(id, user.name, user.email)))
  }

  /**
   * With unique emails, signing in succeeds exactly when a user has this
   * email and the password verifies against that user's hash.
   */
  lemma LoginSucceedsIff(users: seq<UserDoc>, email: string, password: string,
                         verify: (string, string) -> bool, createToken: string -> string)
    requires forall a, b | 0 <= a < b < |users| :: users[a].email != users[b].email
    ensures Login(users, email, password, verify, createToken).Ok? <==>
      exists k | 0 <= k < |users| :: users[k].email == email && verify(password, users[k].passwordHash)
  {
    if exists k | 0 <= k < |users| :: users[k].email == email && verify(password, users[k].passwordHash) {
      var k :| 0 <= k < |users| && users[k].email == email && verify(password, users[k].passwordHash);
      var f := FindOne(users, ByEmail(email)).value;
      assert f == k;
    }
  }

  /** An unknown email and a wrong password are refused with the same error. */
  lemma SameRefusal(users: seq<UserDoc>, unknown: string, known: string, wrong: string,
                    verify: (string, string) -> bool, createToken: string -> string)
    requires forall k | 0 <= k < |users| :: users[k].email != unknown
    requires FindOne(users, ByEmail(known)).Some?
    requires !verify(wrong, users[FindOne(users, ByEmail(known)).value].passwordHash)
    ensures Login(users, unknown, wrong, verify, createToken) == Login(users, known, wrong, verify, createToken)
  {
  }

  /** The profile route: the authenticated user's identifier text, name and email. */
  function Profile(authorization: Option<string>, decode: string -> Option<map<string, string>>,
                   users: seq<UserDoc>): (r: Result<UserResponse, HttpError>)
    ensures r.Ok? <==> GetCurrentUser(authorization, decode, users).Ok?
    ensures r.Err? ==> r == Err(GetCurrentUser(authorization, decode, users).error)
    ensures r.Ok? ==> TokenSubject(authorization, decode) == Ok(Some(r.value.id))
    ensures r.Ok? ==> exists k | 0 <= k < |users| ::
      users[k].id == ObjectId(r.value.id) && r.value == UserResponse(r.value.id, users[k].name, users[k].email)
  {
    match GetCurrentUser(authorization, decode, users)
    case Err(e) => Err(e)
    case Ok(user) => Ok(UserResponse(IdText(user.id), user.name, user.email))
  }

  /** A user appended under a fresh email is the one an email lookup finds. */
  lemma {:induction false} FindByEmailAppend(users: seq<UserDoc>, u: UserDoc)
    requires forall k | 0 <= k < |users| :: users[k].email != u.email
    ensures FindOne(users + [u], ByEmail(u.email)) == Some(|users|)
    decreases |users|
  {
    if users != [] {
      assert (users + [u])[1..] == users[1..] + [u];
      FindByEmailAppend(users[1..], u);
    }
  }

  /**
   * Signing in right after signing up, with the same password, answers with
   * the identifier, name and email the sign-up answered with.
   */
  lemma SignupThenLogin(users: seq<UserDoc>, name: string, email: string, password: string, newId: string,
                        hash: string -> string, verify: (string, string) -> bool, createToken: string -> string)
    requires forall k | 0 <= k < |users| :: users[k].email != email
    requires verify(password, hash(password))
    ensures Login(users + [UserDoc(ObjectId(newId), name, email, hash(password))], email, password, verify, createToken)
      == Ok(AuthReply(createToken(newId), UserResponse(newId, name, email)))
  {
    FindByEmailAppend(users, UserDoc(ObjectId(newId), name, email, hash(password)));
  }

  class UserStore {
    var users: seq<UserDoc>

    /** Emails and identifiers are unique, and every identifier is a generated ObjectId. */
    ghost predicate Valid()
      reads this
    {
      && AllObjectIds(users)
      && (forall a, b | 0 <= a < b < |users| :: users[a].email != users[b].email)
      && (forall a, b | 0 <= a < b < |users| :: users[a].id != users[b].id)
    }

    constructor ()
      ensures Valid() && users == []
    {
      users := [];
    }

    /**
     * The sign-up route. A taken email is refused and nothing is stored;
     * otherwise one user is stored under the new identifier, with the hashed
     * password, and the reply's user id is the token's subject.
     */
    method Signup(name: string, email: string, password: string, newId: string,
                  hash: string -> string, createToken: string -> string) returns (r: Result<AuthReply, HttpError>)
      requires Valid()
      requires forall k | 0 <= k < |users| :: users[k].id != ObjectId(newId)
      modifies this
      ensures Valid()
      ensures (exists k | 0 <= k < |old(users)| :: old(users)[k].email == email) <==> r.Err?
      ensures r.Err? ==> r.error == EmailTaken && users == old(users)
      ensures r.Ok? ==>
        && users == old(users) + [UserDoc(ObjectId(newId), name, email, hash(password))]
        && r.value.user == UserResponse(newId, name, email)
        && r.value.token == createToken(r.value.user.id)
    {
      var existing := FindOne(users, ByEmail(email));
      if existing.Some? {
        return Err(EmailTaken);
      }
      users := users + [UserDoc(ObjectId(newId), name, email, hash(password))];
      r := Ok(AuthReply(createToken(newId), UserResponse(newId, name, email)));
    }
  }
}
