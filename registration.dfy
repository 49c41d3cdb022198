/**
 * The `/register` endpoint of the backend over the `users` table
 * (emailcraft-backend/models.py): a duplicate username is refused, then a
 * password that differs from its confirmation, and otherwise one row
 * holding the username and the hash of the password is inserted.
 */
module Registration {
  import opened Results
  import opened Http

  const UsernameTaken: HttpError := HttpError(400, "Username already registered")
  const PasswordMismatch: HttpError := HttpError(400, "Error: Passwords do not match")
  const RegisteredMessage: string := "User registered successfully"

  /** A row of the `users` table: primary key, unique username, password hash. */
  datatype User = User(id: nat, username: string, hashedPassword: string)

  /** The request body `{username, password, verify_password}`. */
  datatype UserRegister = UserRegister(username: string, password: string, verifyPassword: string)

  /** No two rows share a username (the column's unique constraint). */
  ghost predicate UniqueUsernames(rows: seq<User>)
  {
    forall i, j :: 0 <= i < j < |rows| ==> rows[i].username != rows[j].username
  }

  /** Row ids grow strictly in insertion order and stay below `nextId`. */
  ghost predicate IncreasingIds(rows: seq<User>, nextId: nat)
  {
    && (forall i, j :: 0 <= i < j < |rows| ==> rows[i].id < rows[j].id)
    && (forall i :: 0 <= i < |rows| ==> rows[i].id < nextId)
  }

  /** Some row carries this username. */
  ghost predicate Registered(rows: seq<User>, name: string)
  {
    exists i :: 0 <= i < |rows| && rows[i].username == name
  }

  /** `query(User).filter(User.username == name).first()`: the first row with that username. */
  function FindUser(rows: seq<User>, name: string): (r: Option<User>)
    ensures r.None? <==> !Registered(rows, name)
    ensures r.Some? ==> r.value in rows && r.value.username == name
  {
    if rows == [] then None
    else if rows[0].username == name then Some(rows[0])
    else
      var r := FindUser(rows[1..], name);
      assert Registered(rows, name) ==> Registered(rows[1..], name) by {
        if Registered(rows, name) {
          var i :| 0 <= i < |rows| && rows[i].username == name;
          assert rows[1..][i - 1].username == name;
        }
      }
      assert Registered(rows[1..], name) ==> Registered(rows, name) by {
        if Registered(rows[1..], name) {
          var i :| 0 <= i < |rows[1..]| && rows[1..][i].username == name;
          assert rows[i + 1].username == name;
        }
      }
      r
  }

  /** The table seen as a map from username to password hash. */
  function Accounts(rows: seq<User>): (accounts: map<string, string>)
  {
    if rows == [] then map[]
    else
      var last := rows[|rows| - 1];
      Accounts(rows[..|rows| - 1])[last.username := last.hashedPassword]
  }

  /** The map has exactly the registered usernames as keys. */
  lemma {:induction false} AccountsKeys(rows: seq<User>, name: string)
    ensures name in Accounts(rows) <==> Registered(rows, name)
  {
    if rows != [] {
      var init := rows[..|rows| - 1];
      AccountsKeys(init, name);
      if Registered(init, name) {
        var i :| 0 <= i < |init| && init[i].username == name;
        assert rows[i].username == name;
      }
      if Registered(rows, name) && rows[|rows| - 1].username != name {
        var i :| 0 <= i < |rows| && rows[i].username == name;
        assert init[i].username == name;
      }
    }
  }

  /** With unique usernames every row contributes its own entry: the map is as large as the table. */
  lemma {:induction false} AccountsSize(rows: seq<User>)
    requires UniqueUsernames(rows)
    ensures |Accounts(rows)| == |rows|
  {
    if rows != [] {
      var init := rows[..|rows| - 1];
      var last := rows[|rows| - 1];
      AccountsSize(init);
      AccountsKeys(init, last.username);
      forall i | 0 <= i < |init| ensures init[i].username != last.username {
        assert init[i] == rows[i];
      }
    }
  }

  /** The two checks, in the endpoint's order: the duplicate username first, then the password confirmation. */
  function CheckRegistration(rows: seq<User>, request: UserRegister): (r: Result<(), HttpError>)
    ensures r == Failure(UsernameTaken) <==> Registered(rows, request.username)
    ensures r == Failure(PasswordMismatch)
            <==> !Registered(rows, request.username) && request.password != request.verifyPassword
    ensures r.Success? <==> !Registered(rows, request.username) && request.password == request.verifyPassword
  {
    if FindUser(rows, request.username).Some? then Failure(UsernameTaken)
    else if request.password != request.verifyPassword then Failure(PasswordMismatch)
    else Success(())
  }

  /** Appending a row whose username is new keeps usernames unique and ids increasing. */
  lemma AppendKeepsInvariant(rows: seq<User>, nextId: nat, user: User)
    requires UniqueUsernames(rows) && IncreasingIds(rows, nextId)
    requires !Registered(rows, user.username) && user.id == nextId
    ensures UniqueUsernames(rows + [user]) && IncreasingIds(rows + [user], nextId + 1)
  {
  }

  /** The `users` table together with the password hasher the backend is configured with. */
  class UserTable {
    var rows: seq<User>
    /** The id the database assigns to the next inserted row. */
    var nextId: nat
    /** The password hasher (bcrypt in the backend), taken as an arbitrary function. */
    const hash: string -> string

    ghost predicate Valid()
      reads this
    {
      UniqueUsernames(rows) && IncreasingIds(rows, nextId)
    }

    /** The table as a username-to-hash map. */
    function Table(): (table: map<string, string>)
      reads this
    {
      Accounts(rows)
    }

    constructor (hash: string -> string)
      ensures Valid() && rows == [] && this.hash == hash
    {
      rows := [];
      nextId := 1;
      this.hash := hash;
    }

    /** `register`: the two checks, then one inserted row and the 201 reply. */
    method Register(request: UserRegister) returns (r: Result<Reply, HttpError>)
      requires Valid()
      modifies this
      ensures Valid()
      ensures r.Failure? <==> CheckRegistration(old(rows), request).Failure?
      ensures r.Failure? ==> r.error == CheckRegistration(old(rows), request).error
      ensures r.Failure? ==> rows == old(rows) && nextId == old(nextId)
      ensures r.Success? ==> nextId == old(nextId) + 1
      ensures r.Success? ==> r.value == Reply(201, RegisteredMessage)
      ensures r.Success? ==> rows == old(rows) + [User(old(nextId), request.username, hash(request.password))]
      ensures r.Success? ==>
        && request.username !in old(Table())
        && Table() == old(Table())[request.username := hash(request.password)]
        && |Table()| == |old(Table())| + 1
    {
      var existing := FindUser(rows, request.username);
      if existing.Some? {
        return Failure(UsernameTaken);
      }
      if request.password != request.verifyPassword {
        return Failure(PasswordMismatch);
      }
      var user := User(nextId, request.username, hash(request.password));
      AppendKeepsInvariant(rows, nextId, user);
      AccountsKeys(rows, request.username);
      ghost var before := Accounts(rows);
      var rows' := rows + [user];
      assert rows'[..|rows|] == rows;
      assert Accounts(rows') == before[user.username := user.hashedPassword];
      rows := rows';
      nextId := nextId + 1;
      r := Success(Reply(Created, RegisteredMessage));
    }
  }

  /** The registration the backend's test suite performs, on an empty table. */
  method RegisterScenario(hash: string -> string)
  {
    var table := new UserTable(hash);
    var first := table.Register(UserRegister("testuser", "testpassword", "testpassword"));
    assert first == Success(Reply(201, "User registered successfully"));
    var again := table.Register(UserRegister("testuser", "other", "different"));
    assert again == Failure(HttpError(400, "Username already registered"));
  }
}
