/**
 * What the three server builds share in their auth handlers: the responses
 * they send, email normalisation, the way a JavaScript value reaches a SQL
 * parameter, the bearer-token gate and the login lookup. The JWT library,
 * the clock, the random source and connection failures are inputs.
 */
module Auth {
  import opened Wrappers
  import opened Json
  import opened Schema
  import opened UsersDb
  import Text
  import ServerHelpers

  // ---------------------------------------------------------------------
  // responses
  // ---------------------------------------------------------------------

  /** The `user` object of a session response. */
  datatype PublicUser = PublicUser(userId: string, email: string, name: string, createdAt: string, role: Option<string>)

  /** The JSON body of a response. */
  datatype Body =
    | Message(text: string)
    | InvalidInput(text: string, details: seq<Issue>)
    | Session(user: PublicUser, authToken: string)

  datatype Response = Response(status: int, body: Body)

  /** The columns `RETURNING user_id, email, name, created_at, role` hands back. */
  function PublicOf(row: UserRow): (u: PublicUser)
    ensures u.userId == row.userId && u.email == row.email && u.name == row.name
    ensures u.createdAt == row.createdAt && u.role == row.role
  {
    PublicUser(row.userId, row.email, row.name, row.createdAt, row.role)
  }

  /** The session response for a stored user; the token signs `{ user_id, email }`. */
  function SessionFor(status: int, row: UserRow, sign: (string, string) -> string): Response {
    Response(status, Session(PublicOf(row), sign(row.userId, row.email)))
  }

  const BadCredentials := "Invalid email or password"
  const DuplicateUser := "User with this email already exists"
  const MissingRegisterFields := "Missing required fields: email, password, and name are required"
  const MissingLoginFields := "Missing required fields: email and password are required"
  const RegistrationFailed := "Registration failed. Please try again later."
  const LoginFailed := "Login failed. Please try again later."

  // ---------------------------------------------------------------------
  // inputs of a request
  // ---------------------------------------------------------------------

  /**
   * What a handler depends on besides the table and the body: the nibbles
   * `Math.random` yields, the clock, the JWT signer, the text the SQL driver
   * sends for a non-string parameter, whether each query reaches the database,
   * and the library checks of the validators.
   */
  datatype Env = Env(
    random: nat -> ServerHelpers.Nibble,
    nowIso: string,
    nowMillis: nat,
    sign: (string, string) -> string,
    paramText: Value -> string,
    selectFault: Option<DbError>,
    insertFault: Option<DbError>,
    oracles: Oracles)

  /** What a handler's `try` block can throw. */
  datatype Thrown = ZodError(issues: seq<Issue>) | DbThrown(error: DbError) | TypeError

  /** `role = 'user'` in the destructuring: the default replaces only an absent role. */
  function RoleOf(body: Object): (role: Option<Value>)
    ensures role.Some?
    ensures "role" in body ==> role == Some(body["role"])
    ensures "role" !in body ==> role == Some(Str("user"))
  {
    if "role" in body then Get(body, "role") else Some(Str("user"))
  }

  /** The register guard `!email || !password || !name`. */
  predicate RegisterFieldsPresent(body: Object) {
    Truthy(Get(body, "email")) && Truthy(Get(body, "password")) && Truthy(Get(body, "name"))
  }

  /** The login guard `!email || !password`. */
  predicate LoginFieldsPresent(body: Object) {
    Truthy(Get(body, "email")) && Truthy(Get(body, "password"))
  }

  /** `email.toLowerCase().trim()`. */
  function NormalizeEmail(s: string): string {
    Text.Trim(Text.ToLower(s))
  }

  /** Normalising twice is normalising once. */
  lemma NormalizeEmailIdempotent(s: string)
    ensures NormalizeEmail(NormalizeEmail(s)) == NormalizeEmail(s)
  {
    var x := Text.ToLower(s);
    Text.TrimIsMiddle(x);
    var i, j :| 0 <= i <= j <= |x| && Text.Trim(x) == x[i..j] && Text.Blank(x[..i]) && Text.Blank(x[j..]);
    assert Text.ToLower(x[i..j]) == x[i..j];
    Text.TrimIdempotent(x);
  }

  /** Emails that differ only in letter case or in leading white space normalise alike. */
  lemma NormalizeEmailIgnoresCase(s: string)
    ensures NormalizeEmail(Text.ToLower(s)) == NormalizeEmail(s)
    ensures NormalizeEmail(" " + s) == NormalizeEmail(s)
  {
    Text.ToLowerIdempotent(s);
    var x := Text.ToLower(" " + s);
    assert x[0] == ' ' && x[1..] == Text.ToLower(s);
  }

  /**
   * The text the SQL driver sends for a parameter: `NULL` for `null` and
   * `undefined`, a string as it is, and the runtime's rendering of any other
   * value.
   */
  function SqlParam(v: Option<Value>, paramText: Value -> string): (p: Option<string>)
    ensures p.None? <==> v.None? || v == Some(Null)
    ensures IsString(v) ==> p == Some(v.value.s)
  {
    match v
    case None => None
    case Some(Null) => None
    case Some(Str(s)) => Some(s)
    case Some(x) => Some(paramText(x))
  }

  /** A stored column read back into JavaScript: a string, or `null` for SQL `NULL`. */
  function ColumnValue(c: Option<string>): (v: Option<Value>)
    ensures v.Some?
  {
    Some(if c.Some? then Str(c.value) else Null)
  }

  // ---------------------------------------------------------------------
  // the bearer-token gate
  // ---------------------------------------------------------------------

  /** `authHeader && authHeader.split(' ')[1]`, when that is a non-empty string. */
  function TokenOf(header: Option<string>): (t: Option<string>)
    ensures t.Some? ==> t.value != [] && ' ' !in t.value
  {
    if header.None? then None
    else
      var parts := Text.Split(header.value, ' ');
      if |parts| >= 2 && parts[1] != [] then Some(parts[1]) else None
  }

  /** `Bearer <token>` (or any one-word scheme) yields the token. */
  lemma TokenOfBearer(scheme: string, token: string)
    requires ' ' !in scheme && ' ' !in token && token != []
    ensures TokenOf(Some(scheme + " " + token)) == Some(token)
  {
    Text.SplitJoin([scheme, token], ' ');
    assert Text.Join([scheme, token], ' ') == scheme + " " + token;
  }

  /** No header, an empty one, or a bare scheme carries no token. */
  lemma TokenOfMissing(scheme: string)
    requires ' ' !in scheme
    ensures TokenOf(None).None?
    ensures TokenOf(Some(scheme)).None?
    ensures TokenOf(Some(scheme + " ")).None?
  {
    Text.SplitFree(scheme, ' ');
    Text.SplitPrefix(scheme, ' ', []);
    assert scheme + " " == scheme + [' '] + [];
  }

  /** The outcome of `jwt.verify`: it throws, or it yields the `user_id` claim (absent when not a string). */
  datatype Verified = Rejected | Decoded(userId: Option<string>)

  /** The user a passed request carries: `user_id as id, email, name, created_at`. */
  datatype UserSummary = UserSummary(id: string, email: string, name: string, createdAt: string)

  function SummaryOf(row: UserRow): UserSummary {
    UserSummary(row.userId, row.email, row.name, row.createdAt)
  }

  /** What the gate does: call `next` with the user it found, or answer itself. */
  datatype GateResult = Next(user: UserSummary) | Reject(response: Response)

  /**
   * `authenticateToken`, given the verifier and the user lookup by id (the
   * query's rows, or a failure when the query throws).
   */
  function Gate(header: Option<string>, verify: string -> Verified,
                lookup: Option<string> -> Result<Option<UserSummary>, DbError>): GateResult
  {
    match TokenOf(header)
    case None => Reject(Response(401, Message("Access token required")))
    case Some(token) =>
      match verify(token)
      case Rejected => Reject(Response(403, Message("Invalid or expired token")))
      case Decoded(id) =>
        match lookup(id)
        case Failure(_) => Reject(Response(403, Message("Invalid or expired token")))
        case Success(None) => Reject(Response(401, Message("Invalid token")))
        case Success(Some(u)) => Next(u)
  }

  /** The gate passes exactly a token that verifies and names a user the lookup finds, and hands on that user. */
  lemma GatePasses(header: Option<string>, verify: string -> Verified,
                   lookup: Option<string> -> Result<Option<UserSummary>, DbError>, u: UserSummary)
    ensures Gate(header, verify, lookup) == Next(u) <==>
      (TokenOf(header).Some? && verify(TokenOf(header).value).Decoded? &&
       lookup(verify(TokenOf(header).value).userId) == Success(Some(u)))
  {
  }

  /**
   * Every refusal is 401 or 403: 401 without a token or for an unknown user,
   * 403 exactly when verification or the lookup threw.
   */
  lemma GateRefusals(header: Option<string>, verify: string -> Verified,
                     lookup: Option<string> -> Result<Option<UserSummary>, DbError>)
    ensures var g := Gate(header, verify, lookup);
      g.Reject? ==> (g.response.status == 401 || g.response.status == 403)
    ensures var g := Gate(header, verify, lookup);
      g.Reject? && g.response.status == 403 <==>
        (TokenOf(header).Some? &&
         (verify(TokenOf(header).value).Rejected? || lookup(verify(TokenOf(header).value).userId).Failure?))
    ensures TokenOf(header).None? ==> Gate(header, verify, lookup) == Reject(Response(401, Message("Access token required")))
  {
  }

  /** `SELECT user_id as id, ... FROM users WHERE user_id = $1` on the table. */
  ghost function LookupUserId(rows: map<string, UserRow>, id: Option<string>, fault: Option<DbError>): (r: Result<Option<UserSummary>, DbError>)
    ensures fault.Some? ==> r == Failure(fault.value)
    ensures fault.None? ==> r.Success? && (r.value.Some? <==> id.Some? && HasUserId(rows, id.value))
    ensures fault.None? && r.value.Some? ==> exists e :: e in rows && rows[e].userId == id.value && r.value.value == SummaryOf(rows[e])
  {
    if fault.Some? then Failure(fault.value)
    else if id.Some? && HasUserId(rows, id.value) then
      var e :| e in rows && rows[e].userId == id.value;
      Success(Some(SummaryOf(rows[e])))
    else Success(None)
  }

  /** A request as the gate sees it: its `Authorization` header and the `user` the gate attaches. */
  class Request {
    const authorization: Option<string>
    var user: Option<UserSummary>

    constructor (authorization: Option<string>)
      ensures this.authorization == authorization && user.None?
    {
      this.authorization := authorization;
      user := None;
    }
  }

  /**
   * `authenticateToken` of the compiled build: the lookup is by the `user_id`
   * column of the table. On success the request carries the user and `next`
   * runs; otherwise the request is untouched.
   */
  method Authenticate(req: Request, db: UsersTable, verify: string -> Verified, fault: Option<DbError>) returns (g: GateResult)
    requires db.Valid()
    modifies req
    ensures var rows := db.rows; g == Gate(req.authorization, verify, id => LookupUserId(rows, id, fault))
    ensures g.Next? ==> req.user == Some(g.user)
    ensures g.Reject? ==> req.user == old(req.user)
  {
    ghost var rows := db.rows;
    ghost var lookup := (id: Option<string>) => LookupUserId(rows, id, fault);
    var token := TokenOf(req.authorization);
    if token.None? {
      return Reject(Response(401, Message("Access token required")));
    }
    var decoded := verify(token.value);
    if decoded.Rejected? {
      return Reject(Response(403, Message("Invalid or expired token")));
    }
    if decoded.userId.None? {
      if fault.Some? {
        return Reject(Response(403, Message("Invalid or expired token")));
      }
      return Reject(Response(401, Message("Invalid token")));
    }
    var found := db.SelectByUserId(decoded.userId.value, fault);
    if found.Failure? {
      return Reject(Response(403, Message("Invalid or expired token")));
    }
    if found.value.None? {
      return Reject(Response(401, Message("Invalid token")));
    }
    var row := found.value.value;
    UniqueUserId(rows, decoded.userId.value, row);
    req.user := Some(SummaryOf(row));
    return Next(SummaryOf(row));
  }

  /** With unique user ids, the row the query returns is the one the lookup names. */
  lemma UniqueUserId(rows: map<string, UserRow>, id: string, row: UserRow)
    requires WellFormed(rows)
    requires row in rows.Values && row.userId == id
    ensures LookupUserId(rows, Some(id), None) == Success(Some(SummaryOf(row)))
  {
    var r := LookupUserId(rows, Some(id), None);
    var e :| e in rows && rows[e].userId == id && r.value.value == SummaryOf(rows[e]);
    var e2 :| e2 in rows && rows[e2] == row;
  }

  /**
   * `authenticateToken` of the TypeScript source, which selects by a column
   * `id` of the users table; the lookup is an input because the table's
   * definition is not part of this model.
   */
  method AuthenticateById(req: Request, verify: string -> Verified,
                          lookup: Option<string> -> Result<Option<UserSummary>, DbError>) returns (g: GateResult)
    modifies req
    ensures g == Gate(req.authorization, verify, lookup)
    ensures g.Next? ==> req.user == Some(g.user)
    ensures g.Reject? ==> req.user == old(req.user)
  {
    var token := TokenOf(req.authorization);
    if token.None? {
      return Reject(Response(401, Message("Access token required")));
    }
    var decoded := verify(token.value);
    if decoded.Rejected? {
      return Reject(Response(403, Message("Invalid or expired token")));
    }
    var found := lookup(decoded.userId);
    if found.Failure? {
      return Reject(Response(403, Message("Invalid or expired token")));
    }
    if found.value.None? {
      return Reject(Response(401, Message("Invalid token")));
    }
    req.user := Some(found.value.value);
    return Next(found.value.value);
  }

  // ---------------------------------------------------------------------
  // the login lookup, shared by every build
  // ---------------------------------------------------------------------

  /**
   * The `try` block of `/auth/login` after any field guard: normalise the
   * email (a `TypeError` unless it is a string), look the user up, compare the
   * password with `===` against the stored `password_hash`, and sign a token.
   */
  function LoginAttempt(rows: map<string, UserRow>, email: Option<Value>, password: Option<Value>, env: Env): Result<Response, Thrown> {
    if !IsString(email) then Failure(TypeError)
    else if env.selectFault.Some? then Failure(DbThrown(env.selectFault.value))
    else
      var key := NormalizeEmail(email.value.s);
      if key !in rows then Success(Response(400, Message(BadCredentials)))
      else if !StrictEquals(password, ColumnValue(rows[key].passwordHash)) then Success(Response(400, Message(BadCredentials)))
      else Success(SessionFor(200, rows[key], env.sign))
  }

  /** The lookup as its answer is stated: the user exists and the password matches, or the same 400 either way. */
  lemma LoginAttemptRule(rows: map<string, UserRow>, email: Option<Value>, password: Option<Value>, env: Env)
    requires IsString(email) && env.selectFault.None?
    ensures var r := LoginAttempt(rows, email, password, env);
      var key := NormalizeEmail(email.value.s);
      r.Success? &&
      (r.value.status == 200 <==> key in rows && StrictEquals(password, ColumnValue(rows[key].passwordHash))) &&
      (r.value.status == 200 ==> r.value == SessionFor(200, rows[key], env.sign)) &&
      (r.value.status != 200 ==> r.value == Response(400, Message(BadCredentials)))
  {
  }

  /** A stored user whose password is given verbatim logs in and gets a session for that row. */
  lemma LoginAttemptFinds(rows: map<string, UserRow>, email: Option<Value>, password: string, env: Env, row: UserRow)
    requires IsString(email) && env.selectFault.None?
    requires NormalizeEmail(email.value.s) in rows && rows[NormalizeEmail(email.value.s)] == row
    requires row.passwordHash == Some(password)
    ensures LoginAttempt(rows, email, Some(Str(password)), env) == Success(SessionFor(200, row, env.sign))
  {
    PasswordMatch(password, Some(Str(password)));
  }

  /** A stored string password admits exactly that string. */
  lemma PasswordMatch(stored: string, password: Option<Value>)
    ensures StrictEquals(password, ColumnValue(Some(stored))) <==> password == Some(Str(stored))
  {
    StrictEqualsString(stored, password);
  }

  /** The method form: the handler's steps against the table. */
  method Login(db: UsersTable, email: Option<Value>, password: Option<Value>, env: Env) returns (r: Result<Response, Thrown>)
    requires db.Valid()
    ensures r == LoginAttempt(db.rows, email, password, env)
  {
    if !IsString(email) {
      return Failure(TypeError);
    }
    var key := NormalizeEmail(email.value.s);
    var found := db.SelectByEmail(key, env.selectFault);
    if found.Failure? {
      return Failure(DbThrown(found.error));
    }
    if found.value.None? {
      return Success(Response(400, Message(BadCredentials)));
    }
    var user := found.value.value;
    if !StrictEquals(password, ColumnValue(user.passwordHash)) {
      return Success(Response(400, Message(BadCredentials)));
    }
    return Success(SessionFor(200, user, env.sign));
  }

  // ---------------------------------------------------------------------
  // the register tail, shared by every build
  // ---------------------------------------------------------------------

  /** The row the `INSERT` writes: normalised email, trimmed name, the password and role as given. */
  function NewRow(userId: string, email: string, password: Option<Value>, name: string, role: Option<Value>, env: Env): (row: UserRow)
    ensures row.email == NormalizeEmail(email) && row.name == Text.Trim(name) && row.userId == userId
    ensures row.passwordHash == SqlParam(password, env.paramText) && row.role == SqlParam(role, env.paramText)
    ensures row.createdAt == env.nowIso
  {
    UserRow(userId, NormalizeEmail(email), SqlParam(password, env.paramText), Text.Trim(name), SqlParam(role, env.paramText), env.nowIso)
  }

  /**
   * The common part of `/auth/register` once the body has passed the build's
   * own checks: the duplicate query with parameter `lookup`, then the insert
   * (`email.toLowerCase()` and `name.trim()` throw unless both are strings)
   * and the 201 session. The table changes only on 201.
   */
  function RegisterAttempt(rows: map<string, UserRow>, lookup: Option<string>, userId: string,
                           email: Option<Value>, password: Option<Value>, name: Option<Value>, role: Option<Value>,
                           env: Env): (r: Result<(Response, map<string, UserRow>), Thrown>)
    ensures r.Success? ==> r.value.0.status == 201 || r.value.0.status == 400
    ensures r.Success? && r.value.0.status != 201 ==> r.value.1 == rows
  {
    if env.selectFault.Some? then Failure(DbThrown(env.selectFault.value))
    else if lookup.Some? && lookup.value in rows then Success((Response(400, Message(DuplicateUser)), rows))
    else if !IsString(email) || !IsString(name) then Failure(TypeError)
    else
      var row := NewRow(userId, email.value.s, password, name.value.s, role, env);
      match Inserted(rows, row, env.insertFault)
      case (Failure(e), _) => Failure(DbThrown(e))
      case (Success(stored), after) => Success((SessionFor(201, stored, env.sign), after))
  }

  /** A 201 adds exactly the new row; every other outcome leaves the table as it was. */
  lemma RegisterAttemptEffect(rows: map<string, UserRow>, lookup: Option<string>, userId: string,
                              email: Option<Value>, password: Option<Value>, name: Option<Value>, role: Option<Value>,
                              env: Env)
    ensures var r := RegisterAttempt(rows, lookup, userId, email, password, name, role, env);
      r.Success? && r.value.0.status == 201 <==>
        (env.selectFault.None? && !(lookup.Some? && lookup.value in rows) && IsString(email) && IsString(name) &&
         env.insertFault.None? && NormalizeEmail(email.value.s) !in rows && !HasUserId(rows, userId))
    ensures var r := RegisterAttempt(rows, lookup, userId, email, password, name, role, env);
      r.Success? && r.value.0.status == 201 ==>
        var row := NewRow(userId, email.value.s, password, name.value.s, role, env);
        r.value.1 == rows[row.email := row] && r.value.0 == SessionFor(201, row, env.sign)
  {
  }

  /** When both queries reach the database and nothing is taken, the attempt stores the new row and answers 201. */
  lemma RegisterAttemptStores(rows: map<string, UserRow>, lookup: Option<string>, userId: string,
                              email: Option<Value>, password: Option<Value>, name: Option<Value>, role: Option<Value>,
                              env: Env)
    requires env.selectFault.None? && env.insertFault.None? && !(lookup.Some? && lookup.value in rows)
    requires IsString(email) && IsString(name)
    requires NormalizeEmail(email.value.s) !in rows && !HasUserId(rows, userId)
    ensures var row := NewRow(userId, email.value.s, password, name.value.s, role, env);
      RegisterAttempt(rows, lookup, userId, email, password, name, role, env) ==
        Success((SessionFor(201, row, env.sign), rows[row.email := row]))
  {
  }

  /** The method form: the duplicate query and the insert against the table. */
  method Register(db: UsersTable, lookup: Option<string>, userId: string,
                  email: Option<Value>, password: Option<Value>, name: Option<Value>, role: Option<Value>,
                  env: Env) returns (r: Result<Response, Thrown>)
    requires db.Valid()
    modifies db
    ensures db.Valid()
    ensures var spec := RegisterAttempt(old(db.rows), lookup, userId, email, password, name, role, env);
      (spec.Success? ==> r == Success(spec.value.0) && db.rows == spec.value.1) &&
      (spec.Failure? ==> r == Failure(spec.error) && db.rows == old(db.rows))
  {
    if env.selectFault.Some? {
      return Failure(DbThrown(env.selectFault.value));
    }
    if lookup.Some? {
      var existing := db.SelectByEmail(lookup.value, None);
      if existing.value.Some? {
        return Success(Response(400, Message(DuplicateUser)));
      }
    }
    if !IsString(email) || !IsString(name) {
      return Failure(TypeError);
    }
    var row := NewRow(userId, email.value.s, password, name.value.s, role, env);
    var inserted := db.Insert(row, env.insertFault);
    if inserted.Failure? {
      return Failure(DbThrown(inserted.error));
    }
    return Success(SessionFor(201, inserted.value, env.sign));
  }
}
