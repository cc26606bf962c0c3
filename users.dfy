/** The user controller: registration, login, logout, refreshing the access token, updating
    the profile, and the channel page of a user. File uploads, JWT signing and verification
    and the password check are opaque inputs. */
module UserController {
  import opened Common
  import opened Text
  import opened Query
  import opened Records
  import opened Db
  import SubscriptionController

  /** A user as `.select("-password -refreshToken")` returns it. */
  datatype PublicUser = PublicUser(
    id: Id, username: string, email: string, fullName: string,
    avatar: string, coverImage: string, createdAt: Instant)

  function PublicFields(u: User): PublicUser {
    PublicUser(u.id, u.username, u.email, u.fullName, u.avatar, u.coverImage, u.createdAt)
  }

  /** The filter `{ _id: id }`. */
  function HasId(id: Id): User -> bool {
    (u: User) => u.id == id
  }

  /** `User.findById(id)`: the position of the user with that identifier. */
  function UserIndex(users: seq<User>, id: Id): (r: Option<nat>)
    ensures r.Some? ==> r.value < |users| && users[r.value].id == id
    ensures r.None? <==> forall k :: 0 <= k < |users| ==> users[k].id != id
  {
    FirstIndex(users, HasId(id))
  }

  /** With unique identifiers, the user with identifier `users[i].id` is found at `i`. */
  lemma UserIndexOfUnique(users: seq<User>, bound: Id, i: nat)
    requires IdsFresh(users, UserId, bound) && i < |users|
    ensures UserIndex(users, users[i].id) == Some(i)
  {
    var r := UserIndex(users, users[i].id);
    assert HasId(users[i].id)(users[i]);
  }

  /** Overwriting one user with a record under the same identifier keeps the store consistent. */
  lemma ReplaceUserKeepsConsistent(c: Collections, i: nat, u: User)
    requires Consistent(c) && i < |c.users| && u.id == c.users[i].id
    ensures Consistent(c.(users := c.users[i := u]))
  {
    IdsFreshUpdate(c.users, UserId, c.nextId, i, u);
  }

  /** `user.save()` or `findByIdAndUpdate` of the user at position `i`. */
  method SaveUser(store: Store, i: nat, u: User)
    requires store.Valid() && i < |store.users| && u.id == store.users[i].id
    modifies store
    ensures store.Valid()
    ensures store.State() == old(store.State()).(users := old(store.users)[i := u])
  {
    ghost var before := store.State();
    ReplaceUserKeepsConsistent(before, i, u);
    store.users := store.users[i := u];
    assert store.State() == before.(users := before.users[i := u]);
  }

  /** `User.create`: the document is stored under the next identifier. */
  method InsertUser(store: Store, u: User)
    requires store.Valid() && u.id == store.nextId
    modifies store
    ensures store.Valid()
    ensures store.State() == old(store.State()).(users := old(store.users) + [u], nextId := old(store.nextId) + 1)
  {
    ghost var before := store.State();
    ConsistentRaise(before, before.nextId + 1);
    IdsFreshAppend(before.users, UserId, before.nextId, u);
    var id := store.FreshId();
    store.users := store.users + [u];
    assert store.State() == before.(users := before.users + [u], nextId := before.nextId + 1);
  }

  // ---------------------------------------------------------------------------------------
  // registerUser

  /** `field?.trim() === ""`: the field was sent and holds nothing but white space. An
      absent field does not satisfy this test. */
  predicate SentBlank(x: Option<string>) {
    x.Some? && Trim(x.value) == []
  }

  predicate AnySentBlank(fullName: Option<string>, email: Option<string>, username: Option<string>, password: Option<string>) {
    SentBlank(fullName) || SentBlank(email) || SentBlank(username) || SentBlank(password)
  }

  /** One arm of `{ $or: [{ email }, { username }] }`, compared as sent. An absent value
      is sent as null, which matches no stored user. */
  predicate SameAs(field: string, x: Option<string>) {
    x.Some? && field == x.value
  }

  function TakenBy(email: Option<string>, username: Option<string>): User -> bool {
    (u: User) => SameAs(u.email, email) || SameAs(u.username, username)
  }

  /** `findOne({ $or: [{ email }, { username }] })` finds a user. */
  predicate Taken(users: seq<User>, email: Option<string>, username: Option<string>) {
    FirstIndex(users, TakenBy(email, username)).Some?
  }

  /** The duplicate check finds a user exactly when one has the email or the username
      exactly as sent. */
  lemma TakenIffSameEmailOrUsername(users: seq<User>, email: Option<string>, username: Option<string>)
    ensures Taken(users, email, username) <==>
      exists k :: 0 <= k < |users| && ((email.Some? && users[k].email == email.value)
        || (username.Some? && users[k].username == username.value))
  {
    if FirstIndex(users, TakenBy(email, username)).None? {
      forall k | 0 <= k < |users|
        ensures !((email.Some? && users[k].email == email.value) || (username.Some? && users[k].username == username.value))
      {
        assert !TakenBy(email, username)(users[k]);
      }
    } else {
      var k := FirstIndex(users, TakenBy(email, username)).value;
      assert TakenBy(email, username)(users[k]);
    }
  }

  /** The document `User.create` stores: the username lowercased, the avatar's URL, the
      cover image's URL or the empty string, and no refresh token. */
  function NewUser(id: Id, fullName: string, email: string, username: string, password: string,
                   avatarUrl: string, coverUpload: Option<string>, now: Instant): (u: User)
    ensures u.id == id && u.fullName == fullName && u.email == email && u.password == password
    ensures u.username == ToLower(username) && ToLower(u.username) == u.username
    ensures u.avatar == avatarUrl && (coverUpload.None? ==> u.coverImage == [])
    ensures coverUpload.Some? ==> u.coverImage == coverUpload.value
    ensures u.refreshToken.None? && u.createdAt == now
  {
    ToLowerIdempotent(username);
    User(id, ToLower(username), email, fullName, avatarUrl,
      if coverUpload.Some? then coverUpload.value else "", password, None, now)
  }

  /** The duplicate check compares the username as sent while the stored username is
      lowercased: "Alice" passes the check next to a stored "alice", and is handed to
      `User.create` as "alice" again. */
  lemma CaseVariantPassesDuplicateCheck()
    ensures var alice := User(0, "alice", "alice@example.com", "Alice", "a.png", "", "secret", None, Instant(2024, 1, 1, 0));
      && !Taken([alice], Some("bob@example.com"), Some("Alice"))
      && NewUser(1, "Bob", "bob@example.com", "Alice", "pw", "b.png", None, Instant(2024, 1, 2, 0)).username == alice.username
  {
    var alice := User(0, "alice", "alice@example.com", "Alice", "a.png", "", "secret", None, Instant(2024, 1, 1, 0));
    assert "alice"[0] != "Alice"[0];
    assert !TakenBy(Some("bob@example.com"), Some("Alice"))(alice);
    var stored := ToLower("Alice");
    assert stored[0] == LowerChar('A') == 'a';
    assert stored == "alice";
  }

  /** The end of `registerUser`, once the checks passed and both uploads returned: a
      crash when the avatar upload returned null (its `url` is read) or a field is absent
      (`toLowerCase` of an absent username, or the schema's required fields); otherwise
      the new user is stored and returned without password and refresh token. */
  method CreateUser(store: Store, fullName: Option<string>, email: Option<string>,
                    username: Option<string>, password: Option<string>,
                    avatarUpload: Option<string>, coverUpload: Option<string>, now: Instant)
    returns (r: Reply<PublicUser>)
    requires store.Valid()
    modifies store
    ensures store.Valid()
    ensures avatarUpload.None? || fullName.None? || email.None? || username.None? || password.None? ==>
      r.Crash? && store.State() == old(store.State())
    ensures avatarUpload.Some? && fullName.Some? && email.Some? && username.Some? && password.Some? ==>
      var u := NewUser(old(store.nextId), fullName.value, email.value, username.value, password.value,
        avatarUpload.value, coverUpload, now);
      && r == Ok(201, PublicFields(u), "User Registered Successfully")
      && store.State() == old(store.State()).(users := old(store.users) + [u], nextId := old(store.nextId) + 1)
  {
    if avatarUpload.None? {
      return Crash("Cannot read properties of null (reading 'url')");
    }
    if username.None? {
      return Crash("Cannot read properties of undefined (reading 'toLowerCase')");
    }
    if fullName.None? || email.None? || password.None? {
      return Crash("User validation failed: a required field is missing");
    }
    var u := NewUser(store.nextId, fullName.value, email.value, username.value, password.value,
      avatarUpload.value, coverUpload, now);
    ghost var before := store.State();
    InsertUser(store, u);
    assert store.State() == before.(users := before.users + [u], nextId := before.nextId + 1);
    r := Ok(201, PublicFields(u), "User Registered Successfully");
  }

  /** `registerUser`. In order: 400 when a field was sent blank; 409 when a user has the
      email or the username as sent; 400 without an avatar file; a crash when the avatar
      upload failed (its `url` is read from null) or a field is absent (`toLowerCase` of
      an absent username, or the schema's required fields); otherwise the new user is
      stored and returned without password and refresh token, with HTTP status 201. */
  method RegisterUser(store: Store, fullName: Option<string>, email: Option<string>,
                      username: Option<string>, password: Option<string>,
                      avatarPath: Option<string>, avatarUpload: Option<string>,
                      coverUpload: Option<string>, now: Instant)
    returns (r: Reply<PublicUser>)
    requires store.Valid()
    modifies store
    ensures store.Valid()
    ensures AnySentBlank(fullName, email, username, password) ==>
      r == Fail(400, "Email ,Username,FullName, Password all are required") && store.State() == old(store.State())
    ensures !AnySentBlank(fullName, email, username, password) && Taken(old(store.users), email, username) ==>
      r == Fail(409, "This username or email id is already in use") && store.State() == old(store.State())
    ensures (!AnySentBlank(fullName, email, username, password) && !Taken(old(store.users), email, username)
      && Falsy(avatarPath)) ==>
      r == Fail(400, "Avatar is required") && store.State() == old(store.State())
    ensures (!AnySentBlank(fullName, email, username, password) && !Taken(old(store.users), email, username)
      && !Falsy(avatarPath) && (avatarUpload.None? || fullName.None? || email.None? || username.None? || password.None?)) ==>
      r.Crash? && store.State() == old(store.State())
    ensures (!AnySentBlank(fullName, email, username, password) && !Taken(old(store.users), email, username)
      && !Falsy(avatarPath) && avatarUpload.Some? && fullName.Some? && email.Some? && username.Some? && password.Some?) ==>
      var u := NewUser(old(store.nextId), fullName.value, email.value, username.value, password.value,
        avatarUpload.value, coverUpload, now);
      && r == Ok(201, PublicFields(u), "User Registered Successfully")
      && store.State() == old(store.State()).(users := old(store.users) + [u], nextId := old(store.nextId) + 1)
  {
    if AnySentBlank(fullName, email, username, password) {
      return Fail(400, "Email ,Username,FullName, Password all are required");
    }
    if Taken(store.users, email, username) {
      return Fail(409, "This username or email id is already in use");
    }
    if Falsy(avatarPath) {
      return Fail(400, "Avatar is required");
    }
    r := CreateUser(store, fullName, email, username, password, avatarUpload, coverUpload, now);
  }

  // ---------------------------------------------------------------------------------------
  // loginUser, logoutUser, refreshAccessToken

  /** What `generateAccessToken` and `generateRefreshToken` sign for a user. */
  datatype TokenPair = TokenPair(accessToken: string, refreshToken: string)

  /** The token fields of a response body; a field holding `undefined` is dropped from the
      JSON, which `None` stands for. */
  datatype TokenBody = TokenBody(accessToken: Option<string>, refreshToken: Option<string>)

  /** One arm of `{ $or: [{ username: username?.toLowerCase() }, { email: email?.toLowerCase() }] }`. */
  predicate LoginMatches(u: User, username: Option<string>, email: Option<string>) {
    (username.Some? && u.username == ToLower(username.value))
    || (email.Some? && u.email == ToLower(email.value))
  }

  function LoginFilter(username: Option<string>, email: Option<string>): User -> bool {
    (u: User) => LoginMatches(u, username, email)
  }

  /** `generateAccessandRefreshTokens` for the user at `i`: the refresh token that was
      signed is saved on that user. */
  method IssueTokens(store: Store, i: nat, sign: User -> TokenPair) returns (t: TokenPair)
    requires store.Valid() && i < |store.users|
    modifies store
    ensures store.Valid()
    ensures t == sign(old(store.users)[i])
    ensures store.State() == old(store.State()).(users := old(store.users)[i := old(store.users)[i].(refreshToken := Some(t.refreshToken))])
  {
    t := sign(store.users[i]);
    SaveUser(store, i, store.users[i].(refreshToken := Some(t.refreshToken)));
  }

  /** `loginUser`: 400 when neither a username nor an email was sent; 401 when no user
      has the lowercased username or email; 401 when the password check fails; otherwise
      the first matching user gets a fresh token pair, which is saved and returned. */
  method LoginUser(store: Store, username: Option<string>, email: Option<string>, password: Option<string>,
                   passwordCorrect: (User, Option<string>) -> bool, sign: User -> TokenPair)
    returns (r: Reply<TokenBody>)
    requires store.Valid()
    modifies store
    ensures store.Valid()
    ensures Falsy(username) && Falsy(email) ==>
      r == Fail(400, "Email or Username is required") && store.State() == old(store.State())
    ensures !(Falsy(username) && Falsy(email)) ==>
      match FirstIndex(old(store.users), LoginFilter(username, email))
      case None => r == Fail(401, "User does not exist") && store.State() == old(store.State())
      case Some(i) =>
        if !passwordCorrect(old(store.users)[i], password) then
          r == Fail(401, "Invalid Credentials") && store.State() == old(store.State())
        else
          var t := sign(old(store.users)[i]);
          && r == Ok(200, TokenBody(Some(t.accessToken), Some(t.refreshToken)), "User logged in Successfully")
          && store.State() == old(store.State()).(users := old(store.users)[i := old(store.users)[i].(refreshToken := Some(t.refreshToken))])
  {
    if Falsy(username) && Falsy(email) {
      return Fail(400, "Email or Username is required");
    }
    var found := FirstIndex(store.users, LoginFilter(username, email));
    if found.None? {
      return Fail(401, "User does not exist");
    }
    var i := found.value;
    if !passwordCorrect(store.users[i], password) {
      return Fail(401, "Invalid Credentials");
    }
    var t := IssueTokens(store, i, sign);
    r := Ok(200, TokenBody(Some(t.accessToken), Some(t.refreshToken)), "User logged in Successfully");
  }

  /** Login looks users up by the lowercased name or email: a stored user matches whatever
      the letters' case in the request. */
  lemma LoginIgnoresCase(u: User, username: string)
    requires u.username == ToLower(username)
    ensures LoginMatches(u, Some(username), None)
    ensures forall other :: ToLower(other) == ToLower(username) ==> LoginMatches(u, Some(other), None)
  {
  }

  /** `{ $set: { refreshToken: null } }` on a user. */
  function ClearToken(u: User): User {
    u.(refreshToken := None)
  }

  /** The users after `findByIdAndUpdate(id, { $set: { refreshToken: null } })`. */
  function LoggedOut(users: seq<User>, id: Id): seq<User> {
    UpdateFirst(users, HasId(id), ClearToken)
  }

  /** Logging out clears the refresh token of that user and changes nothing else. */
  lemma LogoutClearsOnlyThatUser(users: seq<User>, bound: Id, id: Id)
    requires IdsFresh(users, UserId, bound)
    ensures |LoggedOut(users, id)| == |users|
    ensures forall k :: 0 <= k < |users| ==>
      LoggedOut(users, id)[k] == if users[k].id == id then users[k].(refreshToken := None) else users[k]
  {
    var f := FirstIndex(users, HasId(id));
    if f.Some? {
      forall k | 0 <= k < |users| && k != f.value ensures users[k].id != id {
        assert UserId(users[k]) != UserId(users[f.value]) by {
          if k < f.value { } else { }
        }
      }
    }
  }

  /** `logoutUser`: 401 without a user; otherwise the user's refresh token is cleared
      (nothing happens when no user has that id) and the reply is 200. */
  method LogoutUser(store: Store, viewer: Option<Id>) returns (r: Reply<()>)
    requires store.Valid()
    modifies store
    ensures store.Valid()
    ensures viewer.None? ==> r == Fail(401, "User is not authenticated") && store.State() == old(store.State())
    ensures viewer.Some? ==>
      && r == Ok(200, (), "User loggegOut Successfully")
      && store.State() == old(store.State()).(users := LoggedOut(old(store.users), viewer.value))
  {
    if viewer.None? {
      return Fail(401, "User is not authenticated");
    }
    var found := FirstIndex(store.users, HasId(viewer.value));
    if found.Some? {
      SaveUser(store, found.value, ClearToken(store.users[found.value]));
    }
    r := Ok(200, (), "User loggegOut Successfully");
  }

  /** The outcome of `jwt.verify` on a token: the `_id` it carries, or the library's
      error message. */
  datatype Verification = Verified(id: Id) | Rejected(message: string)

  /** The outcome of the checks in `refreshAccessToken`'s `try` block before new tokens
      are issued: the position of the user to issue for, or the message of the error. */
  datatype Checked = Accept(index: nat) | Reject(message: string)

  /** The token must verify, name an existing user, and equal the token saved on that user;
      an `ApiError` thrown without arguments carries the class's default message. */
  function RefreshCheck(users: seq<User>, shape: ApiErrorShape, incoming: string, verified: Verification): (r: Checked)
    ensures r.Accept? <==> (verified.Verified? && UserIndex(users, verified.id).Some?
      && users[UserIndex(users, verified.id).value].refreshToken == Some(incoming))
    ensures r.Accept? ==> UserIndex(users, verified.id) == Some(r.index)
    ensures verified.Rejected? ==> r == Reject(verified.message)
    ensures verified.Verified? && UserIndex(users, verified.id).None? ==> r == Reject("Invalid Refresh Token")
  {
    match verified
    case Rejected(m) => Reject(m)
    case Verified(id) =>
      match UserIndex(users, id)
      case None => Reject("Invalid Refresh Token")
      case Some(i) =>
        if users[i].refreshToken != Some(incoming) then Reject(shape.defaultMessage) else Accept(i)
  }

  /** `req.cookies?.refreshToken || req.body.refreshToken`, when it is truthy. */
  function IncomingToken(cookieToken: Option<string>, bodyToken: Option<string>): (t: Option<string>)
    ensures t.Some? <==> !Falsy(cookieToken) || !Falsy(bodyToken)
    ensures t.Some? ==> t.value != [] && (t == cookieToken || (Falsy(cookieToken) && t == bodyToken))
  {
    if !Falsy(cookieToken) then cookieToken
    else if !Falsy(bodyToken) then bodyToken
    else None
  }

  /** `refreshAccessToken`: 401 "Unauthorized Request" without a token; every error inside
      the `try` (a token that does not verify, an unknown user, a token that is not the
      saved one) is re-thrown as 401 with its message, or "Invalid request" when that is
      empty. Otherwise the user's saved refresh token is replaced by a new one, and the
      reply carries neither token: the handler reads `newAccessToken` and `newRefreshToken`
      from an object that has `accessToken` and `refreshToken`. */
  method RefreshAccessToken(store: Store, shape: ApiErrorShape, cookieToken: Option<string>, bodyToken: Option<string>,
                            verify: string -> Verification, sign: User -> TokenPair)
    returns (r: Reply<TokenBody>)
    requires store.Valid()
    modifies store
    ensures store.Valid()
    ensures IncomingToken(cookieToken, bodyToken).None? ==>
      r == Fail(401, "Unauthorized Request") && store.State() == old(store.State())
    ensures IncomingToken(cookieToken, bodyToken).Some? ==>
      var incoming := IncomingToken(cookieToken, bodyToken).value;
      match RefreshCheck(old(store.users), shape, incoming, verify(incoming))
      case Reject(m) =>
        r == Fail(401, if m != [] then m else "Invalid request") && store.State() == old(store.State())
      case Accept(i) =>
        var t := sign(old(store.users)[i]);
        && r == Ok(200, TokenBody(None, None), "Tokens refreshed successfully")
        && store.State() == old(store.State()).(users := old(store.users)[i := old(store.users)[i].(refreshToken := Some(t.refreshToken))])
  {
    var incoming := IncomingToken(cookieToken, bodyToken);
    if incoming.None? {
      return Fail(401, "Unauthorized Request");
    }
    var checked := RefreshCheck(store.users, shape, incoming.value, verify(incoming.value));
    if checked.Reject? {
      return Fail(401, if checked.message != [] then checked.message else "Invalid request");
    }
    var t := IssueTokens(store, checked.index, sign);
    r := Ok(200, TokenBody(None, None), "Tokens refreshed successfully");
  }

  /** A refresh token just saved on a user (by login or by a refresh) is accepted for that
      user, as long as identifiers are unique. */
  lemma IssuedTokenIsAccepted(users: seq<User>, bound: Id, i: nat, shape: ApiErrorShape, token: string)
    requires IdsFresh(users, UserId, bound) && i < |users|
    ensures RefreshCheck(users[i := users[i].(refreshToken := Some(token))], shape, token, Verified(users[i].id)) == Accept(i)
  {
    var after := users[i := users[i].(refreshToken := Some(token))];
    IdsFreshUpdate(users, UserId, bound, i, after[i]);
    UserIndexOfUnique(after, bound, i);
  }

  /** After logout, no refresh token is accepted for that user. */
  lemma LoggedOutTokenIsRejected(users: seq<User>, id: Id, shape: ApiErrorShape, token: string)
    ensures RefreshCheck(LoggedOut(users, id), shape, token, Verified(id)).Reject?
  {
    var f := FirstIndex(users, HasId(id));
    if f.Some? {
      var after := LoggedOut(users, id);
      assert after == users[f.value := ClearToken(users[f.value])];
      forall k | 0 <= k < f.value ensures !HasId(id)(after[k]) {
        assert after[k] == users[k];
      }
      assert HasId(id)(after[f.value]);
      assert UserIndex(after, id) == Some(f.value);
    }
  }

  /** Once a refresh replaced the saved token by a different one, the old token is
      rejected. */
  lemma RotatedTokenIsRejected(users: seq<User>, shape: ApiErrorShape, previous: string, replacement: string, id: Id)
    requires RefreshCheck(users, shape, previous, Verified(id)).Accept? && replacement != previous
    ensures var i := RefreshCheck(users, shape, previous, Verified(id)).index;
      RefreshCheck(users[i := users[i].(refreshToken := Some(replacement))], shape, previous, Verified(id)).Reject?
  {
    var i := RefreshCheck(users, shape, previous, Verified(id)).index;
    var after := users[i := users[i].(refreshToken := Some(replacement))];
    forall k | 0 <= k < i ensures !HasId(id)(after[k]) {
      assert after[k] == users[k];
    }
    assert HasId(id)(after[i]);
    assert UserIndex(after, id) == Some(i);
  }

  // ---------------------------------------------------------------------------------------
  // updateUserDetails

  /** `{ $set: { email, fullName } }` on a user. */
  function SetDetails(email: string, fullName: string): User -> User {
    (u: User) => u.(email := email, fullName := fullName)
  }

  function DetailsUpdated(users: seq<User>, id: Id, email: string, fullName: string): seq<User> {
    UpdateFirst(users, HasId(id), SetDetails(email, fullName))
  }

  /** Updating the details changes the email and full name of that user and nothing else. */
  lemma DetailsUpdateChangesOnlyThatUser(users: seq<User>, bound: Id, id: Id, email: string, fullName: string)
    requires IdsFresh(users, UserId, bound)
    ensures |DetailsUpdated(users, id, email, fullName)| == |users|
    ensures forall k :: 0 <= k < |users| ==>
      DetailsUpdated(users, id, email, fullName)[k] ==
        if users[k].id == id then users[k].(email := email, fullName := fullName) else users[k]
  {
    var f := FirstIndex(users, HasId(id));
    if f.Some? {
      forall k | 0 <= k < |users| && k != f.value ensures users[k].id != id {
        assert UserId(users[k]) != UserId(users[f.value]) by {
          if k < f.value { } else { }
        }
      }
    }
  }

  /** `updateUserDetails`: 401 without a user, 401 when the email or the full name is
      missing or empty, 404 when no user has the requester's id; otherwise both fields are
      overwritten and the updated user is returned without password and refresh token. */
  method UpdateUserDetails(store: Store, viewer: Option<Id>, email: Option<string>, fullName: Option<string>)
    returns (r: Reply<PublicUser>)
    requires store.Valid()
    modifies store
    ensures store.Valid()
    ensures viewer.None? ==> r == Fail(401, "Unauthorized request") && store.State() == old(store.State())
    ensures viewer.Some? && (Falsy(email) || Falsy(fullName)) ==>
      r == Fail(401, "All fields are required") && store.State() == old(store.State())
    ensures viewer.Some? && !Falsy(email) && !Falsy(fullName) ==>
      match UserIndex(old(store.users), viewer.value)
      case None => r == Fail(404, "User not found") && store.State() == old(store.State())
      case Some(i) =>
        && store.State() == old(store.State()).(users := DetailsUpdated(old(store.users), viewer.value, email.value, fullName.value))
        && r == Ok(200, PublicFields(old(store.users)[i].(email := email.value, fullName := fullName.value)), "User DetailsUpdated successfully")
  {
    if viewer.None? {
      return Fail(401, "Unauthorized request");
    }
    if Falsy(email) || Falsy(fullName) {
      return Fail(401, "All fields are required");
    }
    var found := UserIndex(store.users, viewer.value);
    if found.None? {
      return Fail(404, "User not found");
    }
    var i := found.value;
    var u := SetDetails(email.value, fullName.value)(store.users[i]);
    SaveUser(store, i, u);
    r := Ok(200, PublicFields(u), "User DetailsUpdated successfully");
  }

  // ---------------------------------------------------------------------------------------
  // getUserChannelDetails

  /** The channel page: the `$project` of the user's public fields (keeping `_id`) and the
      three fields added from the two subscription lookups. */
  datatype ChannelDetails = ChannelDetails(
    id: Id, fullName: string, username: string, email: string,
    subscribersCount: nat, subscribedToCount: nat, isSubscribed: bool,
    avatar: string, coverImage: string)

  /** `subscribersCount` is the size of the lookup on `channel`, `subscribedToCount` that
      on `subscriber`, and `isSubscribed` asks whether the requester is among the
      subscribers (never, without a requester). */
  function ChannelDetailsOf(subs: seq<Subscription>, u: User, viewer: Option<Id>): (d: ChannelDetails)
    ensures d.id == u.id && d.username == u.username && d.email == u.email && d.fullName == u.fullName
    ensures d.avatar == u.avatar && d.coverImage == u.coverImage
    ensures d.subscribersCount == Count(subs, SubscriptionController.ToChannel(u.id))
    ensures d.subscribedToCount == Count(subs, SubscriptionController.OfSubscriber(u.id))
    ensures d.subscribersCount == 0 <==> forall k :: 0 <= k < |subs| ==> subs[k].channel != u.id
    ensures d.isSubscribed <==>
      viewer.Some? && exists k :: 0 <= k < |subs| && subs[k].subscriber == viewer.value && subs[k].channel == u.id
  {
    var isSubscribed := viewer.Some? && SubscriptionController.FindSubscription(subs, viewer.value, u.id).Some?;
    assert viewer.Some? && !isSubscribed ==> forall k :: 0 <= k < |subs| ==>
      !SubscriptionController.Edge(viewer.value, u.id)(subs[k]);
    assert isSubscribed ==>
      var k := SubscriptionController.FindSubscription(subs, viewer.value, u.id).value;
      SubscriptionController.Edge(viewer.value, u.id)(subs[k]);
    assert Count(subs, SubscriptionController.ToChannel(u.id)) == 0 ==> forall k :: 0 <= k < |subs| ==>
      !SubscriptionController.ToChannel(u.id)(subs[k]);
    ChannelDetails(u.id, u.fullName, u.username, u.email,
      Count(subs, SubscriptionController.ToChannel(u.id)),
      Count(subs, SubscriptionController.OfSubscriber(u.id)),
      isSubscribed, u.avatar, u.coverImage)
  }

  /** `{ $match: { username } }`. */
  function NamedAs(username: string): User -> bool {
    (u: User) => u.username == username
  }

  /** `k` is the first user called `name`: the record `channel[0]` reads. */
  predicate FirstNamed(users: seq<User>, name: string, k: nat) {
    k < |users| && users[k].username == name && forall j :: 0 <= j < k ==> users[j].username != name
  }

  /** The position of the first user called `name`, if any. */
  function FirstNamedIndex(users: seq<User>, name: string): (r: Option<nat>)
    ensures r.Some? ==> FirstNamed(users, name, r.value)
    ensures r.None? <==> forall k :: 0 <= k < |users| ==> users[k].username != name
  {
    var r := FirstIndex(users, NamedAs(name));
    assert r.Some? ==> NamedAs(name)(users[r.value]) && forall j :: 0 <= j < r.value ==> !NamedAs(name)(users[j]);
    assert r.None? ==> forall k :: 0 <= k < |users| ==> !NamedAs(name)(users[k]);
    r
  }

  /** `getUserChannelDetails`: 400 when the username is missing or blank; 404 when no
      user has the lowercased username (which is not trimmed); otherwise the first such
      user's channel page. */
  function GetUserChannelDetails(c: Collections, username: Option<string>, viewer: Option<Id>): (r: Reply<ChannelDetails>)
    ensures MissingOrBlank(username) <==> r == Fail(400, "Username is missing")
    ensures r == Fail(404, "Channel Does not exists") <==>
      !MissingOrBlank(username) && forall k :: 0 <= k < |c.users| ==> c.users[k].username != ToLower(username.value)
    ensures r.Ok? ==> (r.status == 200 && FirstNamedIndex(c.users, ToLower(username.value)).Some?
      && r.data == ChannelDetailsOf(c.subscriptions, c.users[FirstNamedIndex(c.users, ToLower(username.value)).value], viewer))
  {
    if MissingOrBlank(username) then Fail(400, "Username is missing")
    else
      match FirstNamedIndex(c.users, ToLower(username.value))
      case None => Fail(404, "Channel Does not exists")
      case Some(k) =>
        Ok(200, ChannelDetailsOf(c.subscriptions, c.users[k], viewer), "User channel fetched successfully")
  }

  /** A subscription toggle by the requester flips `isSubscribed` on the channel page and
      moves `subscribersCount` by one in the matching direction. */
  lemma ToggleFlipsChannelDetails(subs: seq<Subscription>, u: User, viewer: Id, newId: Id, now: Instant)
    requires Count(subs, SubscriptionController.Edge(viewer, u.id)) <= 1
    ensures var before := ChannelDetailsOf(subs, u, Some(viewer));
      var after := ChannelDetailsOf(SubscriptionController.ToggledSubscriptions(subs, viewer, u.id, newId, now), u, Some(viewer));
      && after.isSubscribed == !before.isSubscribed
      && after.subscribersCount == if before.isSubscribed then before.subscribersCount - 1 else before.subscribersCount + 1
  {
    var toggled := SubscriptionController.ToggledSubscriptions(subs, viewer, u.id, newId, now);
    var edge := SubscriptionController.Edge(viewer, u.id);
    SubscriptionController.SubscriptionToggleCount(subs, viewer, u.id, newId, now);
    SubscriptionController.SubscriptionToggleShiftsChannelCount(subs, viewer, u.id, newId, now);
    var before := ChannelDetailsOf(subs, u, Some(viewer));
    var after := ChannelDetailsOf(toggled, u, Some(viewer));
    assert before.isSubscribed == SubscriptionController.FindSubscription(subs, viewer, u.id).Some?;
    assert after.isSubscribed == SubscriptionController.FindSubscription(toggled, viewer, u.id).Some?;
  }
}
