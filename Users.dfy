/** The user-account table: registration with a duplicate-username check and
    login by exact match on username and password (plaintext, as stored). */
module Users {
  import opened Storage

  /** One row of the users table: columns username, email, contact_no, password. */
  datatype UserRecord = UserRecord(username: string, email: string, contactNo: string, password: string)

  const DuplicateMessage: string := "Username already exists!"
  const SuccessMessage: string := "Registration successful!"

  /** `username in df["username"].values`. */
  function Taken(rows: seq<UserRecord>, username: string): (b: bool)
    ensures b <==> Filter((r: UserRecord) => r.username == username, rows) != []
  {
    exists i :: 0 <= i < |rows| && rows[i].username == username
  }

  /** No two rows of the table share a username. */
  ghost predicate UniqueUsernames(rows: seq<UserRecord>)
  {
    forall i, j :: 0 <= i < j < |rows| ==> rows[i].username != rows[j].username
  }

  /** The boolean mask of login_user: both fields equal, case-sensitively. */
  predicate Matches(r: UserRecord, username: string, password: string)
  {
    r.username == username && r.password == password
  }

  /** login_user: the frame of rows matching both fields is not empty; a table
      that cannot be read gives false rather than an error. */
  function LoginUser(t: Table<UserRecord>, username: string, password: string): (ok: bool)
    ensures ok <==> t.Readable? && exists i :: 0 <= i < |t.rows| && Matches(t.rows[i], username, password)
  {
    match t
    case Unreadable => false
    case Readable(rows) =>
      var user := Filter((r: UserRecord) => Matches(r, username, password), rows);
      assert user != [] ==> user[0] in rows;
      |user| > 0
  }

  /** Appending a row whose username is not yet taken keeps usernames unique. */
  lemma RegisterKeepsUnique(rows: seq<UserRecord>, row: UserRecord)
    requires UniqueUsernames(rows)
    requires !Taken(rows, row.username)
    ensures UniqueUsernames(rows + [row])
  {
    var rows' := rows + [row];
    forall i, j | 0 <= i < j < |rows'|
      ensures rows'[i].username != rows'[j].username
    {
      assert rows'[i] == rows[i];
      if j < |rows| {
        assert rows'[j] == rows[j];
      }
    }
  }

  /** Right after a row is appended, a login with its username and password succeeds. */
  lemma LoginAfterRegister(rows: seq<UserRecord>, row: UserRecord)
    ensures LoginUser(Readable(rows + [row]), row.username, row.password)
  {
    assert (rows + [row])[|rows|] == row;
  }

  /** With unique usernames, a login that gives the wrong password for an
      existing user fails. */
  lemma WrongPasswordRejected(rows: seq<UserRecord>, k: nat, password: string)
    requires UniqueUsernames(rows)
    requires k < |rows| && rows[k].password != password
    ensures !LoginUser(Readable(rows), rows[k].username, password)
  {
    forall i | 0 <= i < |rows|
      ensures !Matches(rows[i], rows[k].username, password)
    {
      if i < k {
        assert rows[i].username != rows[k].username;
      } else if k < i {
        assert rows[k].username != rows[i].username;
      }
    }
  }

  /** With unique usernames, a taken username has exactly one row. */
  lemma {:induction false} TakenHasOneRecord(rows: seq<UserRecord>, username: string)
    requires UniqueUsernames(rows)
    requires Taken(rows, username)
    ensures |Filter((r: UserRecord) => r.username == username, rows)| == 1
  {
    var keep := (r: UserRecord) => r.username == username;
    var rest := rows[1..];
    assert UniqueUsernames(rest) by {
      forall i, j | 0 <= i < j < |rest| ensures rest[i].username != rest[j].username {
        assert rest[i] == rows[i + 1] && rest[j] == rows[j + 1];
      }
    }
    if rows[0].username == username {
      forall i | 0 <= i < |rest| ensures !keep(rest[i]) {
        assert rest[i] == rows[i + 1];
      }
      assert Filter(keep, rest) == [];
    } else {
      var w :| 0 <= w < |rows| && rows[w].username == username;
      assert rest[w - 1] == rows[w];
      TakenHasOneRecord(rest, username);
    }
  }

  /** The users file, as the program sees it between runs of the page script. */
  class UserStore {
    var file: Table<UserRecord>

    /** The table as loaded has unique usernames. */
    ghost predicate Valid()
      reads this
    {
      UniqueUsernames(Load(file))
    }

    constructor (contents: Table<UserRecord>)
      ensures file == contents
    {
      file := contents;
    }

    /** register_user: reject a username already in the loaded table, otherwise
        append one row and write the table back. After a failed read the
        loaded table is empty, so the file is replaced by the new row alone. */
    method Register(username: string, email: string, contactNo: string, password: string)
      returns (ok: bool, msg: string)
      modifies this
      ensures ok <==> !Taken(Load(old(file)), username)
      ensures msg == if ok then SuccessMessage else DuplicateMessage
      ensures !ok ==> file == old(file)
      ensures ok ==> file == Readable(Load(old(file)) + [UserRecord(username, email, contactNo, password)])
      ensures old(Valid()) ==> Valid()
      ensures ok ==> old(file).Unreadable? ==> file.rows == [UserRecord(username, email, contactNo, password)]
      ensures ok ==> LoginUser(file, username, password)
      ensures !ok && old(Valid()) ==> |Filter((r: UserRecord) => r.username == username, Load(file))| == 1
    {
      var df := Load(file);
      if Taken(df, username) {
        assert UniqueUsernames(df) ==> |Filter((r: UserRecord) => r.username == username, df)| == 1 by {
          if UniqueUsernames(df) {
            TakenHasOneRecord(df, username);
          }
        }
        return false, DuplicateMessage;
      }
      var row := UserRecord(username, email, contactNo, password);
      assert UniqueUsernames(df) ==> UniqueUsernames(df + [row]) by {
        if UniqueUsernames(df) {
          RegisterKeepsUnique(df, row);
        }
      }
      LoginAfterRegister(df, row);
      df := df + [row];
      file := Readable(df);
      return true, SuccessMessage;
    }
  }
}
