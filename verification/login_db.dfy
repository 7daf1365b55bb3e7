/**
 * The local `users` table of `login.db`: rows of (_id, username, password)
 * where the password column holds the lower-case hexadecimal SHA-256 digest
 * of the plaintext password, never the plaintext itself.
 */
module LoginDb {
  import opened Hex

  datatype UserRow = UserRow(id: nat, username: string, password: string)

  /** `SELECT * FROM users WHERE username = ?`: the rows with that username, in table order. */
  function UsersNamed(rows: seq<UserRow>, username: string): (r: seq<UserRow>)
    ensures forall u :: u in r <==> u in rows && u.username == username
    ensures |r| <= |rows|
    ensures rows != [] && rows[0].username == username ==> r != [] && r[0] == rows[0]
  {
    if rows == [] then []
    else if rows[0].username == username then [rows[0]] + UsersNamed(rows[1..], username)
    else UsersNamed(rows[1..], username)
  }

  /** Adding rows after the first row with a given name never changes which row is found first. */
  lemma {:induction false} UsersNamedFirstStable(rows: seq<UserRow>, more: seq<UserRow>, username: string)
    requires UsersNamed(rows, username) != []
    ensures UsersNamed(rows + more, username) != []
    ensures UsersNamed(rows + more, username)[0] == UsersNamed(rows, username)[0]
  {
    if rows[0].username != username {
      assert (rows + more)[1..] == rows[1..] + more;
      UsersNamedFirstStable(rows[1..], more, username);
    }
  }

  /** The query finds nothing when no row has that name. */
  lemma {:induction false} UsersNamedNone(rows: seq<UserRow>, username: string)
    requires forall u :: u in rows ==> u.username != username
    ensures UsersNamed(rows, username) == []
  {
    if rows != [] {
      assert rows[0] in rows;
      UsersNamedNone(rows[1..], username);
    }
  }

  /** Appending rows with other names does not change the query's result. */
  lemma {:induction false} UsersNamedAppendOther(rows: seq<UserRow>, more: seq<UserRow>, username: string)
    requires forall u :: u in more ==> u.username != username
    ensures UsersNamed(rows + more, username) == UsersNamed(rows, username)
  {
    if rows == [] {
      assert rows + more == more;
      UsersNamedNone(more, username);
    } else {
      assert (rows + more)[1..] == rows[1..] + more;
      UsersNamedAppendOther(rows[1..], more, username);
    }
  }

  /** What the password column holds: 64 lower-case hexadecimal digits. */
  predicate IsStoredHash(s: string) {
    |s| == 64 && AllHexDigits(s)
  }

  class LoginDatabaseHelper {
    var rows: seq<UserRow>
    /** The `_id` AUTOINCREMENT will assign next. */
    var nextId: nat
    /** SHA-256 of the password's bytes: a 32-byte digest. */
    const digest: string -> seq<JavaByte>

    ghost predicate Valid()
      reads this
    {
      (forall p :: |digest(p)| == 32) &&
      (forall i :: 0 <= i < |rows| ==> IsStoredHash(rows[i].password)) &&
      nextId >= 1 &&
      (forall i :: 0 <= i < |rows| ==> rows[i].id < nextId) &&
      (forall i, j :: 0 <= i < j < |rows| ==> rows[i].id < rows[j].id)
    }

    /** A freshly created, empty table. */
    constructor (digest: string -> seq<JavaByte>)
      requires forall p :: |digest(p)| == 32
      ensures Valid()
      ensures rows == [] && this.digest == digest
    {
      rows := [];
      nextId := 1;
      this.digest := digest;
    }

    /** `hashPassword`: the digest of the password rendered as lower-case hexadecimal, 64 characters long. */
    method HashPassword(password: string) returns (hash: string)
      requires Valid()
      ensures hash == Encode(digest(password))
      ensures IsStoredHash(hash)
    {
      hash := ToHexString(digest(password));
    }

    /** `addUser`: appends a row holding the username and the hash of the password. */
    method AddUser(username: string, password: string)
      requires Valid()
      modifies this
      ensures Valid()
      ensures rows == old(rows) + [UserRow(old(nextId), username, Encode(digest(password)))]
      ensures nextId == old(nextId) + 1
    {
      var hash := HashPassword(password);
      rows := rows + [UserRow(nextId, username, hash)];
      nextId := nextId + 1;
    }

    /** `getUser`: the cursor over the rows with that username. */
    method GetUser(username: string) returns (cursor: seq<UserRow>)
      ensures cursor == UsersNamed(rows, username)
      ensures forall u :: u in cursor <==> u in rows && u.username == username
    {
      cursor := UsersNamed(rows, username);
    }

    /** `SELECT COUNT(*) FROM users`. */
    function Count(): (n: nat)
      reads this
      ensures n == 0 <==> rows == []
    {
      |rows|
    }
  }
}
