/** The SQL statement both updateProfile handlers build: one `SET` clause
    per truthy field, in the order name, email, password, with the
    placeholders `$1..$n` counted by `paramCount`, then the caller's id as
    the `WHERE` parameter `$(n+1)`. userController.js also sets
    `updated_at`; authController.js does not.

    A body field is "" when it is missing or falsy. `hash` is bcrypt.hash
    with the salt of this call; the clause builder receives its result for
    the password. Running the statement is the database's
    and is not part of this model. */
module ProfileUpdate {
  import opened Common

  datatype ProfileBody = ProfileBody(name: string, email: string, password: string)

  /** Which handler builds the statement. */
  datatype Variant = StampsUpdatedAt | NoTimestamp

  datatype UpdateQuery = UpdateQuery(text: string, values: seq<string>)


  datatype Column = NameColumn | EmailColumn | PasswordColumn

  function ColumnName(c: Column): string {
    match c
    case NameColumn => "name"
    case EmailColumn => "email"
    case PasswordColumn => "password"
  }

  /** Position of a column in the handlers' order. */
  function Rank(c: Column): nat {
    match c
    case NameColumn => 0
    case EmailColumn => 1
    case PasswordColumn => 2
  }

  /** The value bound to a column: the password column takes `hashed`,
      the bcrypt hash of the password. */
  function ColumnValue(b: ProfileBody, hashed: string, c: Column): string {
    match c
    case NameColumn => b.name
    case EmailColumn => b.email
    case PasswordColumn => hashed
  }

  /** The columns to set, one guarded push per field. */
  function Columns(b: ProfileBody): seq<Column> {
    (if b.name != "" then [NameColumn] else [])
    + (if b.email != "" then [EmailColumn] else [])
    + (if b.password != "" then [PasswordColumn] else [])
  }

  /** The columns set are exactly the truthy fields, in the handlers' order. */
  lemma ColumnsAreTruthyFields(b: ProfileBody)
    ensures NameColumn in Columns(b) <==> b.name != ""
    ensures EmailColumn in Columns(b) <==> b.email != ""
    ensures PasswordColumn in Columns(b) <==> b.password != ""
    ensures forall i, j :: 0 <= i < j < |Columns(b)| ==> Rank(Columns(b)[i]) < Rank(Columns(b)[j])
  {
  }

  /** `<column> = $<n>`. */
  function SetClause(c: Column, n: nat): string {
    ColumnName(c) + " = $" + NatToString(n)
  }

  const Returning: string := " RETURNING id, name, email, role, created_at"

  /** What follows the joined clauses, with `$n` the WHERE parameter. */
  function Tail(v: Variant, n: nat): string {
    (if v == StampsUpdatedAt then ", updated_at = CURRENT_TIMESTAMP" else "")
    + " WHERE id = $" + NatToString(n) + Returning
  }

  /** Clause `i` binds placeholder `i + 1` to the value in position `i`. */
  ghost predicate Numbered(clauses: seq<string>, values: seq<string>, cols: seq<Column>,
                           b: ProfileBody, hashed: string)
  {
    && |clauses| == |cols| == |values|
    && forall i :: 0 <= i < |cols| ==>
         clauses[i] == SetClause(cols[i], i + 1) && values[i] == ColumnValue(b, hashed, cols[i])
  }

  /** One `push` onto both arrays keeps the numbering. */
  lemma NumberedPush(clauses: seq<string>, values: seq<string>, cols: seq<Column>,
                     b: ProfileBody, hashed: string, c: Column)
    requires Numbered(clauses, values, cols, b, hashed)
    ensures Numbered(clauses + [SetClause(c, |cols| + 1)], values + [ColumnValue(b, hashed, c)], cols + [c], b, hashed)
  {
  }

  /** The three guarded pushes: one clause and one value per truthy
      field, `paramCount` one past the last placeholder used. */
  method CollectSetClauses(b: ProfileBody, hashed: string)
    returns (clauses: seq<string>, values: seq<string>, paramCount: nat)
    ensures Numbered(clauses, values, Columns(b), b, hashed)
    ensures paramCount == |Columns(b)| + 1
  {
    ghost var cols: seq<Column> := [];
    values := [];
    paramCount := 1;
    clauses := [];
    if b.name != "" {
      NumberedPush(clauses, values, cols, b, hashed, NameColumn);
      clauses := clauses + [SetClause(NameColumn, paramCount)];
      values := values + [b.name];
      cols := cols + [NameColumn];
      paramCount := paramCount + 1;
    }
    assert Numbered(clauses, values, cols, b, hashed) && paramCount == |cols| + 1;
    if b.email != "" {
      NumberedPush(clauses, values, cols, b, hashed, EmailColumn);
      clauses := clauses + [SetClause(EmailColumn, paramCount)];
      values := values + [b.email];
      cols := cols + [EmailColumn];
      paramCount := paramCount + 1;
    }
    assert Numbered(clauses, values, cols, b, hashed) && paramCount == |cols| + 1;
    if b.password != "" {
      NumberedPush(clauses, values, cols, b, hashed, PasswordColumn);
      clauses := clauses + [SetClause(PasswordColumn, paramCount)];
      values := values + [hashed];
      cols := cols + [PasswordColumn];
      paramCount := paramCount + 1;
    }
    assert cols == Columns(b);
  }

  /** updateProfile's builder. `userId` is `req.user.id`. With no field to
      set it answers 400 "No updates provided" and no statement exists. The
      clauses are returned beside the statement so that their numbering can
      be stated. */
  method BuildProfileUpdate(b: ProfileBody, userId: string, hash: string -> string, v: Variant)
    returns (r: Result<UpdateQuery, string>, clauses: seq<string>)
    ensures r.Err? <==> b.name == "" && b.email == "" && b.password == ""
    ensures r.Err? ==> r.error == "No updates provided"
    ensures r.Ok? ==>
              var cs := Columns(b);
              && r.value.text == "UPDATE users SET " + Join(clauses, ", ") + Tail(v, |cs| + 1)
              && |r.value.values| == |cs| + 1
              && Numbered(clauses, r.value.values[..|cs|], cs, b, hash(b.password))
              && r.value.values[|cs|] == userId
  {
    var values, paramCount;
    clauses, values, paramCount := CollectSetClauses(b, hash(b.password));
    ColumnsAreTruthyFields(b);
    if |clauses| == 0 {
      return Err("No updates provided"), clauses;
    }
    ghost var bound := values;
    values := values + [userId];
    assert values[..|bound|] == bound;
    r := Ok(UpdateQuery("UPDATE users SET " + Join(clauses, ", ") + Tail(v, paramCount), values));
  }

  /** Each placeholder number is used once: the clauses name `$1..$n`
      without repetition, and none of them reuses the WHERE number. */
  lemma PlaceholdersDistinct(i: nat, j: nat)
    requires i < j
    ensures NatToString(i + 1) != NatToString(j + 1)
  {
    if NatToString(i + 1) == NatToString(j + 1) {
      NatToStringInjective(i + 1, j + 1);
    }
  }

  /** A name and a password give `name = $1, password = $2`, the hash as
      the second value and the id as `$3`. */
  lemma NameAndPasswordExample()
    ensures var cs := Columns(ProfileBody("Ann", "", "pw"));
            && cs == [NameColumn, PasswordColumn]
            && SetClause(cs[0], 1) == "name = $1" && SetClause(cs[1], 2) == "password = $2"
            && Tail(NoTimestamp, 3) == " WHERE id = $3" + Returning
  {
    assert SetClause(NameColumn, 1) == "name = $1" by {
      assert NatToString(1) == "1";
    }
    assert SetClause(PasswordColumn, 2) == "password = $2" by {
      assert NatToString(2) == "2";
    }
    assert Tail(NoTimestamp, 3) == " WHERE id = $3" + Returning by {
      assert NatToString(3) == "3";
      assert " WHERE id = $" + "3" == " WHERE id = $3";
    }
  }
}
