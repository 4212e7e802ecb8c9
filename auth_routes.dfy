/** The `/api/auth` router: register and login are public; `/me` and
    `/change-password` sit behind `authenticateToken`. */
module AuthRoutes {
  import opened Common
  import opened Credentials
  import opened BackendTypes
  import opened UserService
  import opened Http
  import opened AuthMiddleware

  /** `{ email, name, password }`; `None` stands for absent or empty. */
  datatype RegisterBody = RegisterBody(email: Option<string>, name: Option<string>, password: Option<string>)

  datatype LoginBody = LoginBody(email: Option<string>, password: Option<string>)

  datatype PasswordChangeBody = PasswordChangeBody(currentPassword: Option<string>, newPassword: Option<string>)

  /** POST /register: all three fields required, a password of at least six
      characters, a free email; then the new user is logged in, and the token
      it receives passes the gate as that user. */
  method Register(store: UserStore, body: RegisterBody, id: Id, salt: string, now: Timestamp)
    returns (resp: Response)
    requires store.Valid() && id !in store.users
    modifies store
    ensures store.Valid()
    ensures !(Truthy(body.email) && Truthy(body.name) && Truthy(body.password)) ==>
      resp == Response(400, ErrorJson(MissingFields)) && store.users == old(store.users)
    ensures Truthy(body.email) && Truthy(body.name) && Truthy(body.password) && |body.password.value| < MinPasswordLength ==>
      resp == Response(400, ErrorJson(PasswordTooShort)) && store.users == old(store.users)
    ensures Truthy(body.email) && Truthy(body.name) && Truthy(body.password) && |body.password.value| >= MinPasswordLength ==>
      if old(EmailInUse(store.users, body.email.value)) then
        resp == Response(400, ErrorJson(Service(EmailTaken))) && store.users == old(store.users)
      else
        && store.users == old(store.users)[id := User(id, body.email.value, body.name.value,
                                                     Hash(body.password.value, salt), now)]
        && resp == Response(201, SessionJson(UserPublic(id, body.email.value, body.name.value, now), Sign(id)))
        && (' ' !in id ==> Decide(Some("Bearer " + resp.body.token)) == Pass(id))
  {
    if !Truthy(body.email) || !Truthy(body.name) || !Truthy(body.password) {
      return Response(400, ErrorJson(MissingFields));
    }
    var email, name, password := body.email.value, body.name.value, body.password.value;
    if |password| < MinPasswordLength {
      return Response(400, ErrorJson(PasswordTooShort));
    }
    var created := store.CreateUser(id, email, name, password, salt, now);
    if created.Err? {
      return Response(400, ErrorJson(Service(created.failure)));
    }
    var session := store.AuthenticateUser(email, password);
    if session.Err? {
      assert false;
    }
    assert store.users[session.value.user.id].email == store.users[id].email;
    resp := Response(201, SessionJson(created.value, session.value.token));
    if ' ' !in id {
      IssuedTokenPasses(id);
    }
  }

  /** POST /login: both fields required; a failed login answers 401 whatever the
      reason; a successful one returns the user and a token signed for it. */
  method Login(store: UserStore, body: LoginBody) returns (resp: Response)
    requires store.Valid()
    ensures !(Truthy(body.email) && Truthy(body.password)) ==> resp == Response(400, ErrorJson(MissingFields))
    ensures Truthy(body.email) && Truthy(body.password) && !Authenticates(store.users, body.email.value, body.password.value) ==>
      resp == Response(401, ErrorJson(Service(BadCredentials)))
    ensures resp.status == 200 <==>
      Truthy(body.email) && Truthy(body.password) && Authenticates(store.users, body.email.value, body.password.value)
    ensures resp.status == 200 ==>
      && resp.body.SessionJson?
      && resp.body.user.id in store.users
      && resp.body.user == SanitizeUser(store.users[resp.body.user.id])
      && resp.body.user.email == body.email.value
      && resp.body.token == Sign(resp.body.user.id)
  {
    if !Truthy(body.email) || !Truthy(body.password) {
      return Response(400, ErrorJson(MissingFields));
    }
    var session := store.AuthenticateUser(body.email.value, body.password.value);
    if session.Err? {
      return Response(401, ErrorJson(Service(session.failure)));
    }
    resp := Response(200, SessionJson(session.value.user, session.value.token));
  }

  /** GET /me: the caller's row without its password; a valid token for a user
      who no longer exists answers 400. */
  method Me(store: UserStore, authorization: Option<string>) returns (resp: Response)
    requires store.Valid()
    ensures Decide(authorization).Reject? ==> resp == Decide(authorization).response
    ensures Decide(authorization).Pass? ==>
      var uid := Decide(authorization).userId;
      resp == if uid in store.users then Response(200, UserJson(SanitizeUser(store.users[uid])))
              else Response(400, ErrorJson(Service(UserNotFound)))
  {
    var gate := Decide(authorization);
    if gate.Reject? {
      return gate.response;
    }
    var user := store.GetUserById(gate.userId);
    if user.Err? {
      return Response(400, ErrorJson(Service(user.failure)));
    }
    resp := Response(200, UserJson(SanitizeUser(user.value)));
  }

  /** PUT /me: `updateUser` on the caller's own row. */
  method UpdateMe(store: UserStore, authorization: Option<string>, name: Option<string>, email: Option<string>)
    returns (resp: Response)
    requires store.Valid()
    modifies store
    ensures store.Valid()
    ensures Decide(authorization).Reject? ==>
      resp == Decide(authorization).response && store.users == old(store.users)
    ensures Decide(authorization).Pass? ==>
      var uid := Decide(authorization).userId;
      if Truthy(email) && old(EmailHeldByOther(store.users, email.value, uid)) then
        resp == Response(400, ErrorJson(Service(EmailTaken))) && store.users == old(store.users)
      else if uid !in old(store.users) then
        resp == Response(400, ErrorJson(Service(UserNotFound))) && store.users == old(store.users)
      else
        && store.users == old(store.users)[uid := Renamed(old(store.users)[uid], name, email)]
        && resp == Response(200, UserJson(SanitizeUser(store.users[uid])))
  {
    var gate := Decide(authorization);
    if gate.Reject? {
      return gate.response;
    }
    var r := store.UpdateUser(gate.userId, name, email);
    if r.Err? {
      return Response(400, ErrorJson(Service(r.failure)));
    }
    resp := Response(200, UserJson(r.value));
  }

  /** PUT /change-password: both fields required, a new password of at least six
      characters, and the current password must match. */
  method ChangePasswordRoute(store: UserStore, authorization: Option<string>, body: PasswordChangeBody, salt: string)
    returns (resp: Response)
    requires store.Valid()
    modifies store
    ensures store.Valid()
    ensures Decide(authorization).Reject? ==>
      resp == Decide(authorization).response && store.users == old(store.users)
    ensures Decide(authorization).Pass? ==>
      var uid := Decide(authorization).userId;
      if !(Truthy(body.currentPassword) && Truthy(body.newPassword)) then
        resp == Response(400, ErrorJson(MissingFields)) && store.users == old(store.users)
      else if |body.newPassword.value| < MinPasswordLength then
        resp == Response(400, ErrorJson(PasswordTooShort)) && store.users == old(store.users)
      else if uid !in old(store.users) then
        resp == Response(400, ErrorJson(Service(UserNotFound))) && store.users == old(store.users)
      else if !Matches(body.currentPassword.value, old(store.users)[uid].password) then
        resp == Response(400, ErrorJson(Service(WrongPassword))) && store.users == old(store.users)
      else
        && resp == Response(200, PasswordChangedJson)
        && store.users == old(store.users)[uid := old(store.users)[uid].(password := Hash(body.newPassword.value, salt))]
  {
    var gate := Decide(authorization);
    if gate.Reject? {
      return gate.response;
    }
    if !Truthy(body.currentPassword) || !Truthy(body.newPassword) {
      return Response(400, ErrorJson(MissingFields));
    }
    if |body.newPassword.value| < MinPasswordLength {
      return Response(400, ErrorJson(PasswordTooShort));
    }
    var r := store.ChangePassword(gate.userId, body.currentPassword.value, body.newPassword.value, salt);
    if r.Err? {
      return Response(400, ErrorJson(Service(r.failure)));
    }
    resp := Response(200, PasswordChangedJson);
  }
}
