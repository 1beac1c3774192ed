/** The `users` table of the newer backend and the three account handlers
    that read or extend it: register, login and getProfile
    (userController.js and authController.js carry near-identical copies).

    Password hashing and comparison are bcrypt's; they are parameters here:
    `hash` is bcrypt.hash with the salt of this call, `compare` is
    bcrypt.compare. Signing the token is jsonwebtoken's, so login returns
    the claims it would sign. A name or email field is "" when it is
    missing; a missing password is None, which bcrypt refuses with
    "Illegal arguments", so the handler answers 500. */
module Accounts {
  import opened Common

  datatype UserRow = UserRow(id: nat, name: string, email: string, password: string, role: string)

  /** The claims login signs into its token. */
  datatype Claims = Claims(id: nat, email: string, role: string)

  /** The columns getProfile selects (created_at is not modelled). */
  datatype Profile = Profile(id: nat, name: string, email: string, role: string)

  datatype AccountError =
    | UserExists          // 400 'User already exists'
    | InvalidCredentials  // 400 'Invalid credentials'
    | UserNotFound        // 404 'User not found'
    | ServerError         // 500, bcrypt given no password

  /** `SELECT * FROM users WHERE email = $1`: the index of the first row. */
  function EmailIndex(rows: seq<UserRow>, email: string): (r: Option<nat>)
    ensures r.Some? ==> r.value < |rows| && rows[r.value].email == email
    ensures r.Some? ==> forall j :: 0 <= j < r.value ==> rows[j].email != email
    ensures r.None? <==> forall j :: 0 <= j < |rows| ==> rows[j].email != email
    decreases |rows|
  {
    if |rows| == 0 then None
    else if rows[0].email == email then Some(0)
    else match EmailIndex(rows[1..], email)
      case None => None
      case Some(k) => Some(k + 1)
  }

  /** `SELECT ... WHERE id = $1`. */
  function IdIndex(rows: seq<UserRow>, id: nat): (r: Option<nat>)
    ensures r.Some? ==> r.value < |rows| && rows[r.value].id == id
    ensures r.None? <==> forall j :: 0 <= j < |rows| ==> rows[j].id != id
    decreases |rows|
  {
    if |rows| == 0 then None
    else if rows[0].id == id then Some(0)
    else match IdIndex(rows[1..], id)
      case None => None
      case Some(k) => Some(k + 1)
  }

  /** login: the first row with the email, then the password check. Both
      failures give the same error, so a caller cannot tell an unknown
      email from a wrong password. Without a password, bcrypt.compare
      throws once a row is found. */
  function LoginIn(rows: seq<UserRow>, email: string, password: Option<string>,
                   compare: (string, string) -> bool): (r: Result<Claims, AccountError>)
    ensures r.Err? ==> r.error in {InvalidCredentials, ServerError}
    ensures r == Err(ServerError) <==> EmailIndex(rows, email).Some? && password.None?
    ensures r.Ok? <==>
              EmailIndex(rows, email).Some? && password.Some?
              && compare(password.value, rows[EmailIndex(rows, email).value].password)
    ensures r.Ok? ==> var u := rows[EmailIndex(rows, email).value];
                      r.value == Claims(u.id, u.email, u.role)
  {
    match EmailIndex(rows, email)
    case None => Err(InvalidCredentials)
    case Some(k) =>
      if password.None? then Err(ServerError)
      else if !compare(password.value, rows[k].password) then Err(InvalidCredentials)
      else Ok(Claims(rows[k].id, rows[k].email, rows[k].role))
  }

  /** A user appended under a fresh email logs in with any password that
      bcrypt accepts for the stored hash, and earlier users log in as
      before. */
  lemma {:induction false} LoginAfterInsert(rows: seq<UserRow>, u: UserRow, email: string, password: Option<string>,
                                            compare: (string, string) -> bool)
    requires EmailIndex(rows, u.email).None?
    ensures email == u.email && password.Some? && compare(password.value, u.password) ==>
              LoginIn(rows + [u], email, password, compare) == Ok(Claims(u.id, u.email, u.role))
    ensures email != u.email ==> LoginIn(rows + [u], email, password, compare) == LoginIn(rows, email, password, compare)
  {
    EmailIndexAppend(rows, u, email);
  }

  lemma {:induction false} EmailIndexAppend(rows: seq<UserRow>, u: UserRow, email: string)
    ensures EmailIndex(rows, email).Some? ==> EmailIndex(rows + [u], email) == EmailIndex(rows, email)
    ensures EmailIndex(rows, email).None? && u.email == email ==> EmailIndex(rows + [u], email) == Some(|rows|)
    ensures EmailIndex(rows, email).None? && u.email != email ==> EmailIndex(rows + [u], email).None?
    decreases |rows|
  {
    if |rows| > 0 && rows[0].email != email {
      assert (rows + [u])[1..] == rows[1..] + [u];
      EmailIndexAppend(rows[1..], u, email);
    }
  }

  /** The user table. Emails are unique, as register keeps them; ids come
      from the serial counter. */
  class UserTable {
    var rows: seq<UserRow>
    var nextId: nat

    ghost predicate Valid()
      reads this
    {
      && (forall i :: 0 <= i < |rows| ==> rows[i].id < nextId)
      && (forall i, j :: 0 <= i < j < |rows| ==> rows[i].id != rows[j].id)
      && (forall i, j :: 0 <= i < j < |rows| ==> rows[i].email != rows[j].email)
    }

    constructor()
      ensures Valid() && rows == [] && nextId == 1
    {
      rows := [];
      nextId := 1;
    }

    /** register: an email already on file is refused and nothing is
        inserted; a missing password makes bcrypt.hash throw; otherwise the
        row stores the hash of the password and the role, 'user' when the
        body gives none. */
    method Register(name: string, email: string, password: Option<string>, role: Option<string>,
                    hash: string -> string) returns (r: Result<UserRow, AccountError>)
      requires Valid()
      modifies this
      ensures Valid()
      ensures r == Err(UserExists) <==> EmailIndex(old(rows), email).Some?
      ensures r == Err(ServerError) <==> EmailIndex(old(rows), email).None? && password.None?
      ensures r.Err? ==> r.error in {UserExists, ServerError} && rows == old(rows) && nextId == old(nextId)
      ensures r.Ok? ==>
                && password.Some?
                && r.value == UserRow(old(nextId), name, email, hash(password.value),
                                      if role.Some? then role.value else "user")
                && rows == old(rows) + [r.value] && nextId == old(nextId) + 1
    {
      if EmailIndex(rows, email).Some? {
        return Err(UserExists);
      }
      if password.None? {
        return Err(ServerError);
      }
      var u := UserRow(nextId, name, email, hash(password.value), if role.Some? then role.value else "user");
      assert forall i :: 0 <= i < |rows| ==> rows[i].email != email;
      rows := rows + [u];
      nextId := nextId + 1;
      r := Ok(u);
    }

    /** The row getProfile selects. */
    function FindProfile(id: nat): (p: Option<Profile>)
      reads this
      ensures p.None? <==> forall i :: 0 <= i < |rows| ==> rows[i].id != id
      ensures p.Some? ==> exists i :: 0 <= i < |rows| && rows[i].id == id &&
                                  p.value == Profile(id, rows[i].name, rows[i].email, rows[i].role)
    {
      match IdIndex(rows, id)
      case None => None
      case Some(k) => Some(Profile(id, rows[k].name, rows[k].email, rows[k].role))
    }

    /** getProfile of authController.js: no row answers 404. */
    function GetProfile(id: nat): (r: Result<Profile, AccountError>)
      reads this
      ensures r.Err? <==> forall i :: 0 <= i < |rows| ==> rows[i].id != id
      ensures r.Err? ==> r.error == UserNotFound
      ensures r.Ok? ==> exists i :: 0 <= i < |rows| && rows[i].id == id &&
                                    r.value == Profile(id, rows[i].name, rows[i].email, rows[i].role)
    {
      match FindProfile(id)
      case None => Err(UserNotFound)
      case Some(p) => Ok(p)
    }
  }

  /** A user who has just registered can log in with the same password,
      as long as bcrypt accepts it for the hash it produced. */
  method RegisterThenLogin(t: UserTable, name: string, email: string, password: string, role: Option<string>,
                           hash: string -> string, compare: (string, string) -> bool)
    returns (entered: Result<UserRow, AccountError>, claims: Result<Claims, AccountError>)
    requires t.Valid()
    requires compare(password, hash(password))
    modifies t
    ensures entered.Ok? ==> claims == Ok(Claims(entered.value.id, email, entered.value.role))
    ensures entered.Err? ==> entered.error == UserExists && claims == LoginIn(old(t.rows), email, Some(password), compare)
  {
    entered := t.Register(name, email, Some(password), role, hash);
    if entered.Ok? {
      LoginAfterInsert(old(t.rows), entered.value, email, Some(password), compare);
    }
    claims := LoginIn(t.rows, email, Some(password), compare);
  }
}
