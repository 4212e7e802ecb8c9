/** `UserService`: registration, login, profile and password changes over the users table. */
module UserService {
  import opened Common
  import opened Credentials
  import opened BackendTypes

  /** What a successful login hands back. */
  datatype Session = Session(user: UserPublic, token: string)

  /** No two rows share an email: the duplicate checks of createUser and updateUser keep this. */
  ghost predicate UniqueEmails(users: map<Id, User>) {
    forall a, b | a in users && b in users && users[a].email == users[b].email :: a == b
  }

  ghost predicate EmailInUse(users: map<Id, User>, email: string) {
    exists k | k in users :: users[k].email == email
  }

  /** Some row other than `id` has this email. */
  ghost predicate EmailHeldByOther(users: map<Id, User>, email: string, id: Id) {
    exists k | k in users && k != id :: users[k].email == email
  }

  /** The email/password pair logs in. */
  ghost predicate Authenticates(users: map<Id, User>, email: string, password: string) {
    exists k | k in users :: users[k].email == email && Matches(password, users[k].password)
  }

  /** The row after `UPDATE users SET name = ?, email = ?` with only the truthy fields. */
  function Renamed(u: User, name: Option<string>, email: Option<string>): (r: User)
    ensures r.id == u.id && r.password == u.password && r.createdAt == u.createdAt
    ensures r.name == (if Truthy(name) then name.value else u.name)
    ensures r.email == (if Truthy(email) then email.value else u.email)
  {
    u.(name := if Truthy(name) then name.value else u.name,
       email := if Truthy(email) then email.value else u.email)
  }

  /** Applying the same profile update twice changes nothing more; an update with
      no truthy field changes nothing. */
  lemma RenamedIdempotent(u: User, name: Option<string>, email: Option<string>)
    ensures Renamed(Renamed(u, name, email), name, email) == Renamed(u, name, email)
    ensures !Truthy(name) && !Truthy(email) ==> Renamed(u, name, email) == u
  {
  }

  /** After a password change the user's email logs in with the new password,
      and with another password exactly when bcrypt cannot tell the two apart
      (they agree in their first 72 bytes); the old password then no longer
      logs in unless it agrees with the new one there. */
  lemma {:induction false} ChangedPasswordLogsIn(users: map<Id, User>, id: Id, newPassword: string, salt: string, other: string)
    requires id in users && UniqueEmails(users)
    ensures Authenticates(users[id := users[id].(password := Hash(newPassword, salt))], users[id].email, newPassword)
    ensures Authenticates(users[id := users[id].(password := Hash(newPassword, salt))], users[id].email, other)
        <==> Significant(other) == Significant(newPassword)
  {
    var users' := users[id := users[id].(password := Hash(newPassword, salt))];
    var email := users[id].email;
    assert users'[id].email == email && Matches(newPassword, users'[id].password);
    forall k | k in users' && users'[k].email == email ensures k == id {
      assert users[k].email == users[id].email;
    }
    if Significant(other) == Significant(newPassword) {
      assert Matches(other, users'[id].password);
    }
  }

  class UserStore {
    var users: map<Id, User>

    ghost predicate Valid()
      reads this
    {
      && (forall k | k in users :: users[k].id == k)
      && UniqueEmails(users)
    }

    constructor ()
      ensures Valid() && users == map[]
    {
      users := map[];
    }

    /** `SELECT * FROM users WHERE email = ?`: the one row with that email, if any. */
    method GetUserByEmail(email: string) returns (r: Option<User>)
      requires Valid()
      ensures r.None? <==> !EmailInUse(users, email)
      ensures r.Some? ==> r.value.id in users && users[r.value.id] == r.value && r.value.email == email
    {
      var pending := users.Keys;
      while pending != {}
        invariant pending <= users.Keys
        invariant forall k | k in users && k !in pending :: users[k].email != email
        decreases pending
      {
        var k :| k in pending;
        if users[k].email == email {
          return Some(users[k]);
        }
        pending := pending - {k};
      }
      return None;
    }

    /** `getUserById`. */
    function GetUserById(id: Id): (r: Result<User>)
      reads this
      requires Valid()
      ensures r.Ok? <==> id in users
      ensures r.Ok? ==> r.value.id == id && r.value == users[id]
      ensures r.Err? ==> r.failure == UserNotFound
    {
      if id in users then Ok(users[id]) else Err(UserNotFound)
    }

    /** `createUser`: refuses a taken email; otherwise stores the salted hash, never
        the password, and returns the row without it. */
    method CreateUser(id: Id, email: string, name: string, password: string, salt: string, now: Timestamp)
      returns (r: Result<UserPublic>)
      requires Valid() && id !in users
      modifies this
      ensures Valid()
      ensures old(EmailInUse(users, email)) ==> r == Err(EmailTaken) && users == old(users)
      ensures !old(EmailInUse(users, email)) ==>
        && users == old(users)[id := User(id, email, name, Hash(password, salt), now)]
        && r == Ok(UserPublic(id, email, name, now))
        && Authenticates(users, email, password)
    {
      var existing := GetUserByEmail(email);
      if existing.Some? {
        return Err(EmailTaken);
      }
      users := users[id := User(id, email, name, Hash(password, salt), now)];
      assert users[id].email == email && Matches(password, users[id].password);
      r := Ok(SanitizeUser(users[id]));
    }

    /** `authenticateUser`: an unknown email and a wrong password fail with the same
        error; on success the token is signed for the user's id. */
    method AuthenticateUser(email: string, password: string) returns (r: Result<Session>)
      requires Valid()
      ensures r.Ok? <==> Authenticates(users, email, password)
      ensures r.Err? ==> r.failure == BadCredentials
      ensures r.Ok? ==>
        var k := r.value.user.id;
        && k in users && users[k].email == email && Matches(password, users[k].password)
        && r.value.user == SanitizeUser(users[k]) && r.value.token == Sign(k)
    {
      var user := GetUserByEmail(email);
      if user.None? {
        return Err(BadCredentials);
      }
      var u := user.value;
      if !Matches(password, u.password) {
        forall k | k in users && users[k].email == email ensures !Matches(password, users[k].password) {
          assert users[k].email == users[u.id].email;
        }
        return Err(BadCredentials);
      }
      r := Ok(Session(SanitizeUser(u), Sign(u.id)));
    }

    /** `updateUser`: sets only the truthy fields; refuses an email another user
        holds; a missing user is reported, not created. */
    method UpdateUser(id: Id, name: Option<string>, email: Option<string>) returns (r: Result<UserPublic>)
      requires Valid()
      modifies this
      ensures Valid()
      ensures Truthy(email) && old(EmailHeldByOther(users, email.value, id)) ==>
        r == Err(EmailTaken) && users == old(users)
      ensures !(Truthy(email) && old(EmailHeldByOther(users, email.value, id))) ==>
        if id in old(users) then
          && users == old(users)[id := Renamed(old(users)[id], name, email)]
          && r == Ok(SanitizeUser(users[id]))
        else
          r == Err(UserNotFound) && users == old(users)
    {
      if Truthy(email) {
        var existing := GetUserByEmail(email.value);
        if existing.Some? && existing.value.id != id {
          return Err(EmailTaken);
        }
        if existing.Some? {
          assert !EmailHeldByOther(users, email.value, id);
        }
      }
      if !Truthy(name) && !Truthy(email) {
        var current := GetUserById(id);
        if current.Err? {
          return Err(current.failure);
        }
        assert users[id := Renamed(users[id], name, email)] == users;
        return Ok(SanitizeUser(current.value));
      }
      if id !in users {
        return Err(UserNotFound);
      }
      users := users[id := Renamed(users[id], name, email)];
      r := Ok(SanitizeUser(users[id]));
    }

    /** `changePassword`: the current password must match; only the hash changes. */
    method ChangePassword(id: Id, currentPassword: string, newPassword: string, salt: string) returns (r: Result<()>)
      requires Valid()
      modifies this
      ensures Valid()
      ensures id !in old(users) ==> r == Err(UserNotFound) && users == old(users)
      ensures id in old(users) && !Matches(currentPassword, old(users)[id].password) ==>
        r == Err(WrongPassword) && users == old(users)
      ensures id in old(users) && Matches(currentPassword, old(users)[id].password) ==>
        && r == Ok(())
        && users == old(users)[id := old(users)[id].(password := Hash(newPassword, salt))]
    {
      var user := GetUserById(id);
      if user.Err? {
        return Err(user.failure);
      }
      if !Matches(currentPassword, user.value.password) {
        return Err(WrongPassword);
      }
      users := users[id := user.value.(password := Hash(newPassword, salt))];
      r := Ok(());
    }
  }
}
