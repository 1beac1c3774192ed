/** Request authentication of the newer backend (middleware/auth.js): the
    Bearer header is parsed, the token verified, and the caller's id, role
    and email taken from the payload; authorizeRoles then admits listed
    roles only. Every authentication failure answers 401.

    Token verification belongs to a JWT library outside this model; it is a
    parameter that either decodes a payload or throws an error of some name.
    A payload field is "" when missing or falsy. For a payload without a
    role the 403 text therefore ends "Your role: ", where the template
    writes "Your role: undefined". */
module Auth {
  import opened Common

  datatype Payload = Payload(id: string, mongoId: string, role: string, email: string)

  datatype Verified = Decoded(payload: Payload) | Thrown(name: string)

  /** `req.user`. */
  datatype AuthUser = AuthUser(id: string, role: string, email: string)

  const Prefix: string := "Bearer "

  predicate StartsWith(s: string, p: string) {
    |p| <= |s| && s[..|p|] == p
  }

  predicate OccursAt(s: string, p: string, i: int) {
    0 <= i && i + |p| <= |s| && s[i..i + |p|] == p
  }

  /** `s.replace(p, rep)` with a string pattern: only the first occurrence
      is replaced. */
  function ReplaceFirst(s: string, p: string, rep: string): (r: string)
    ensures StartsWith(s, p) ==> r == rep + s[|p|..]
    ensures (forall i :: 0 <= i <= |s| ==> !OccursAt(s, p, i)) ==> r == s
    decreases |s|
  {
    if StartsWith(s, p) then
      assert OccursAt(s, p, 0);
      rep + s[|p|..]
    else if |s| == 0 then s
    else
      assert forall i :: 0 <= i <= |s| - 1 && OccursAt(s[1..], p, i) ==> OccursAt(s, p, i + 1) by {
        forall i | 0 <= i <= |s| - 1 && OccursAt(s[1..], p, i) ensures OccursAt(s, p, i + 1) {
          assert s[1..][i..i + |p|] == s[i + 1..i + 1 + |p|];
        }
      }
      [s[0]] + ReplaceFirst(s[1..], p, rep)
  }

  /** Once the header starts with the prefix, removing the first occurrence
      drops exactly those seven characters. */
  lemma TokenIsRest(header: string)
    requires StartsWith(header, Prefix)
    ensures ReplaceFirst(header, Prefix, "") == header[|Prefix|..]
    ensures |ReplaceFirst(header, Prefix, "")| == |header| - 7
  {
  }

  /** A second "Bearer " inside the token stays. */
  lemma OnlyFirstPrefixRemoved()
    ensures ReplaceFirst("Bearer Bearer x", Prefix, "") == "Bearer x"
  {
    assert StartsWith("Bearer Bearer x", Prefix);
    assert "Bearer Bearer x"[7..] == "Bearer x";
  }

  /** The `errorMap` lookup and its fallback. */
  function ErrorMessage(name: string): (m: string)
    ensures name == "TokenExpiredError" ==> m == "Token expired"
    ensures name == "JsonWebTokenError" ==> m == "Invalid token"
    ensures name == "NotBeforeError" ==> m == "Token not active"
    ensures name != "TokenExpiredError" && name != "JsonWebTokenError" && name != "NotBeforeError" ==>
              m == "Authentication failed"
  {
    if name == "TokenExpiredError" then "Token expired"
    else if name == "JsonWebTokenError" then "Invalid token"
    else if name == "NotBeforeError" then "Token not active"
    else "Authentication failed"
  }

  /** The error a payload without ids raises is a plain Error. */
  const PlainErrorName: string := "Error"

  /** authenticate: `header` is the Authorization header ("" when absent);
      an error carries the 401 message. */
  function Authenticate(header: string, verify: string -> Verified): (r: Result<AuthUser, string>)
    ensures header == "" ==> r == Err("No token provided")
    ensures header != "" && !StartsWith(header, Prefix) ==> r == Err("Invalid token format. Must be Bearer token")
    ensures header == Prefix ==> r == Err("Invalid token format")
    ensures StartsWith(header, Prefix) && |header| > |Prefix| && verify(header[|Prefix|..]).Thrown? ==>
              r == Err(ErrorMessage(verify(header[|Prefix|..]).name))
    ensures StartsWith(header, Prefix) && |header| > |Prefix| && verify(header[|Prefix|..]).Decoded? ==>
              var p := verify(header[|Prefix|..]).payload;
              && (p.id == "" && p.mongoId == "" ==> r == Err("Authentication failed"))
              && (p.id != "" || p.mongoId != "" ==>
                    r == Ok(AuthUser(if p.id != "" then p.id else p.mongoId, p.role, p.email)))
    ensures r.Ok? ==> StartsWith(header, Prefix) && r.value.id != ""
  {
    if header == "" then Err("No token provided")
    else if !StartsWith(header, Prefix) then Err("Invalid token format. Must be Bearer token")
    else
      var token := ReplaceFirst(header, Prefix, "");
      assert token == header[|Prefix|..] by { TokenIsRest(header); }
      if token == "" then Err("Invalid token format")
      else match verify(token)
        case Thrown(name) => Err(ErrorMessage(name))
        case Decoded(p) =>
          if p.id == "" && p.mongoId == "" then Err(ErrorMessage(PlainErrorName))
          else Ok(AuthUser(if p.id != "" then p.id else p.mongoId, p.role, p.email))
  }

  /** The outcome depends on the token only through what verification
      says about it. */
  lemma AuthenticateOnlyAsksVerifier(header: string, v1: string -> Verified, v2: string -> Verified)
    requires StartsWith(header, Prefix) && |header| > |Prefix|
    requires v1(header[|Prefix|..]) == v2(header[|Prefix|..])
    ensures Authenticate(header, v1) == Authenticate(header, v2)
  {
  }

  datatype Denied = Denied(status: int, message: string)

  /** authorizeRoles(...roles) applied to the authenticated user, if any. */
  function AuthorizeRoles(user: Option<AuthUser>, roles: seq<string>): (r: Result<AuthUser, Denied>)
    ensures user.None? <==> r == Err(Denied(401, "Not authenticated"))
    ensures r.Ok? <==> user.Some? && user.value.role in roles
    ensures r.Ok? ==> r.value == user.value
    ensures user.Some? && user.value.role !in roles ==>
              r == Err(Denied(403, "Required roles: " + Join(roles, ", ") + ". Your role: " + user.value.role))
  {
    match user
    case None => Err(Denied(401, "Not authenticated"))
    case Some(u) =>
      if u.role in roles then Ok(u)
      else Err(Denied(403, "Required roles: " + Join(roles, ", ") + ". Your role: " + u.role))
  }

  /** Admitting more roles never turns a caller away who was admitted. */
  lemma AuthorizeMonotone(user: Option<AuthUser>, roles: seq<string>, more: seq<string>)
    requires AuthorizeRoles(user, roles).Ok?
    ensures AuthorizeRoles(user, roles + more).Ok?
  {
  }
}
