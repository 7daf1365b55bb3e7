/**
 * The login screen backed by the local `users` table: on first start it
 * seeds an administrator account; a login succeeds when the first row with
 * the entered username stores the hash of the entered password, and only
 * then is the session marked as logged in.
 */
module PasswordLogin {
  import opened Hex
  import opened LoginDb
  import opened Session

  const AdminUsername: string := "admin"
  const AdminPassword: string := "admin123"

  /** The credentials are accepted: the first row named `username` holds the hash of `password`. */
  predicate Authenticates(rows: seq<UserRow>, digest: string -> seq<JavaByte>, username: string, password: string) {
    var found := UsersNamed(rows, username);
    found != [] && found[0].password == Encode(digest(password))
  }

  /** A username with no row is rejected, whatever the password. */
  lemma UnknownUserRejected(rows: seq<UserRow>, digest: string -> seq<JavaByte>, username: string, password: string)
    requires forall u :: u in rows ==> u.username != username
    ensures !Authenticates(rows, digest, username, password)
  {
    UsersNamedNone(rows, username);
  }

  /** A user added under a new name logs in with the password it was added with. */
  lemma NewUserAuthenticates(rows: seq<UserRow>, digest: string -> seq<JavaByte>, id: nat, username: string, password: string)
    requires forall u :: u in rows ==> u.username != username
    ensures Authenticates(rows + [UserRow(id, username, Encode(digest(password)))], digest, username, password)
  {
    var row := UserRow(id, username, Encode(digest(password)));
    var found := UsersNamed(rows + [row], username);
    assert row in rows + [row];
    assert found[0] in found;
  }

  /** A password whose digest differs from the stored one is rejected. */
  lemma WrongPasswordRejected(rows: seq<UserRow>, digest: string -> seq<JavaByte>, username: string, password: string, guess: string)
    requires Authenticates(rows, digest, username, password)
    requires digest(guess) != digest(password)
    ensures !Authenticates(rows, digest, username, guess)
  {
    EncodeInjective(digest(guess), digest(password));
  }

  /** Only the first row of a username counts: a later row with the same name changes no login. */
  lemma DuplicateUsernameIgnored(rows: seq<UserRow>, digest: string -> seq<JavaByte>, row: UserRow, username: string, password: string)
    requires UsersNamed(rows, username) != []
    ensures Authenticates(rows + [row], digest, username, password) == Authenticates(rows, digest, username, password)
  {
    UsersNamedFirstStable(rows, [row], username);
  }

  /** Adding a user under another name changes no one else's login. */
  lemma OtherUserKeepsLogin(rows: seq<UserRow>, digest: string -> seq<JavaByte>, row: UserRow, username: string, password: string)
    requires row.username != username
    ensures Authenticates(rows + [row], digest, username, password) == Authenticates(rows, digest, username, password)
  {
    UsersNamedAppendOther(rows, [row], username);
  }

  class LoginActivity {
    const loginDbHelper: LoginDatabaseHelper
    const session: Preferences

    constructor (loginDbHelper: LoginDatabaseHelper, session: Preferences)
      ensures this.loginDbHelper == loginDbHelper && this.session == session
    {
      this.loginDbHelper := loginDbHelper;
      this.session := session;
    }

    /** `isFirstTimeSetup`: the user table has no rows. */
    method IsFirstTimeSetup() returns (firstTime: bool)
      ensures firstTime <==> loginDbHelper.rows == []
    {
      var count := loginDbHelper.Count();
      firstTime := count == 0;
    }

    /** `authenticateUser`: looks the username up and compares the first row's hash with the password's. */
    method AuthenticateUser(username: string, password: string) returns (ok: bool)
      requires loginDbHelper.Valid()
      ensures ok == Authenticates(loginDbHelper.rows, loginDbHelper.digest, username, password)
    {
      var cursor := loginDbHelper.GetUser(username);
      if cursor != [] {
        var hash := loginDbHelper.HashPassword(password);
        return cursor[0].password == hash;
      }
      return false;
    }

    /** `onCreate`: on an empty table, adds the administrator account, which can then log in. */
    method OnCreate()
      requires loginDbHelper.Valid()
      modifies loginDbHelper
      ensures loginDbHelper.Valid()
      ensures loginDbHelper.rows != []
      ensures old(loginDbHelper.rows) == [] ==>
        loginDbHelper.rows == [UserRow(old(loginDbHelper.nextId), AdminUsername, Encode(loginDbHelper.digest(AdminPassword)))] &&
        Authenticates(loginDbHelper.rows, loginDbHelper.digest, AdminUsername, AdminPassword)
      ensures old(loginDbHelper.rows) != [] ==>
        loginDbHelper.rows == old(loginDbHelper.rows) && loginDbHelper.nextId == old(loginDbHelper.nextId)
    {
      var firstTime := IsFirstTimeSetup();
      if firstTime {
        loginDbHelper.AddUser(AdminUsername, AdminPassword);
        NewUserAuthenticates([], loginDbHelper.digest, old(loginDbHelper.nextId), AdminUsername, AdminPassword);
        assert [] + loginDbHelper.rows == loginDbHelper.rows;
      }
    }

    /** `loginUser`: stores `is_logged_in = true` in the session. */
    method LoginUser()
      modifies session
      ensures session.values == old(session.values)[LoggedInKey := true]
    {
      session.PutBoolean(LoggedInKey, true);
    }

    /** The login button: marks the session logged in exactly when the credentials are accepted. */
    method OnLoginClicked(username: string, password: string) returns (loggedIn: bool)
      requires loginDbHelper.Valid()
      modifies session
      ensures loggedIn == Authenticates(loginDbHelper.rows, loginDbHelper.digest, username, password)
      ensures loggedIn ==> session.values == old(session.values)[LoggedInKey := true]
      ensures !loggedIn ==> session.values == old(session.values)
    {
      loggedIn := AuthenticateUser(username, password);
      if loggedIn {
        LoginUser();
      }
    }
  }
}
