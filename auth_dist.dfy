/**
 * `/auth/register` and `/auth/login` of the compiled API server: a guard on
 * the required fields, validation with `createUserInputSchema`, the
 * duplicate check and insert on the normalised email, and a `catch` that maps
 * each error to a status.
 */
module DistAuth {
  import opened Wrappers
  import opened Json
  import opened Schema
  import opened UsersDb
  import opened Auth
  import Schemas
  import Text
  import ServerHelpers

  const InvalidInputData := "Invalid input data"
  const DatabaseUnavailable := "Database service temporarily unavailable"

  // ---------------------------------------------------------------------
  // /auth/register
  // ---------------------------------------------------------------------

  /** The object `{ email, password, name, role }` handed to the schema. */
  function RegisterInput(email: Value, password: Value, name: Value, role: Value): (input: Object)
    ensures input.Keys == {"email", "password", "name", "role"}
  {
    map["email" := email, "password" := password, "name" := name, "role" := role]
  }

  /** The `try` block: a response and the new table, or what it throws. */
  function RegisterTry(rows: map<string, UserRow>, body: Object, env: Env): Result<(Response, map<string, UserRow>), Thrown> {
    var email, password, name, role := Get(body, "email"), Get(body, "password"), Get(body, "name"), RoleOf(body);
    if !RegisterFieldsPresent(body) then Success((Response(400, Message(MissingRegisterFields)), rows))
    else
      match Parse(Schemas.CreateUser, RegisterInput(email.value, password.value, name.value, role.value), env.oracles)
      case Failure(issues) => Failure(ZodError(issues))
      case Success(_) =>
        if !IsString(email) then Failure(TypeError)
        else RegisterAttempt(rows, Some(NormalizeEmail(email.value.s)), ServerHelpers.UniqueId(env.random),
                             email, password, name, role, env)
  }

  /** The `catch` block: a zod error, then the error codes `23505` and `ECONNREFUSED`, then anything else. */
  function RegisterCaught(t: Thrown): (res: Response)
    ensures res.status in {400, 500, 503}
  {
    if t.ZodError? then Response(400, InvalidInput(InvalidInputData, t.issues))
    else if t.DbThrown? && Code(t.error) == "23505" then Response(400, Message(DuplicateUser))
    else if t.DbThrown? && Code(t.error) == "ECONNREFUSED" then Response(503, Message(DatabaseUnavailable))
    else Response(500, Message(RegistrationFailed))
  }

  /** The whole handler: the response and the table afterwards. */
  function Register(rows: map<string, UserRow>, body: Object, env: Env): (r: (Response, map<string, UserRow>)) {
    match RegisterTry(rows, body, env)
    case Success(done) => done
    case Failure(t) => (RegisterCaught(t), rows)
  }

  /**
   * What a registration needs to succeed: a non-empty e-mail, a name of 1 to
   * 255 UTF-16 code units, a password of 6 or more and a non-empty role (given or
   * defaulted), all strings; both queries reach the database; neither the
   * normalised email nor the fresh id is taken.
   */
  predicate RegisterAccepts(rows: map<string, UserRow>, body: Object, env: Env) {
    IsString(Get(body, "email")) && body["email"].s != [] && env.oracles.isEmail(body["email"].s) &&
    Schemas.TextBetween(Get(body, "name"), 1, 255) && Schemas.TextAtLeast(Get(body, "password"), 6) &&
    Schemas.TextAtLeast(RoleOf(body), 1) &&
    env.selectFault.None? && env.insertFault.None? &&
    NormalizeEmail(body["email"].s) !in rows &&
    !HasUserId(rows, ServerHelpers.UniqueId(env.random))
  }

  /** The handler against the table. */
  method RegisterHandler(db: UsersTable, body: Object, env: Env) returns (res: Response)
    requires db.Valid()
    modifies db
    ensures db.Valid()
    ensures (res, db.rows) == Register(old(db.rows), body, env)
  {
    var email, password, name, role := Get(body, "email"), Get(body, "password"), Get(body, "name"), RoleOf(body);
    if !RegisterFieldsPresent(body) {
      return Response(400, Message(MissingRegisterFields));
    }
    var parsed := Parse(Schemas.CreateUser, RegisterInput(email.value, password.value, name.value, role.value), env.oracles);
    if parsed.Failure? {
      return RegisterCaught(ZodError(parsed.error));
    }
    if !IsString(email) {
      return RegisterCaught(TypeError);
    }
    var r := Auth.Register(db, Some(NormalizeEmail(email.value.s)), ServerHelpers.UniqueId(env.random),
                           email, password, name, role, env);
    if r.Failure? {
      return RegisterCaught(r.error);
    }
    return r.value;
  }

  /**
   * What the schema accepts here: a string e-mail, a name of 1 to 255
   * UTF-16 code units, a password of 6 or more and a non-empty role.
   */
  lemma RegisterInputRules(email: Value, password: Value, name: Value, role: Value, o: Oracles)
    ensures Parse(Schemas.CreateUser, RegisterInput(email, password, name, role), o).Success? <==>
      (email.Str? && o.isEmail(email.s) && name.Str? && 1 <= Text.Utf16Length(name.s) <= 255 &&
       password.Str? && 6 <= Text.Utf16Length(password.s) && role.Str? && role.s != [])
  {
    var input := RegisterInput(email, password, name, role);
    Schemas.CreateUserRules(input, o);
    assert Get(input, "email") == Some(email) && Get(input, "name") == Some(name);
    assert Get(input, "password") == Some(password) && Get(input, "role") == Some(role);
  }

  /** A missing or empty email, password or name gives 400 and leaves the table alone. */
  lemma RegisterMissingFields(rows: map<string, UserRow>, body: Object, env: Env)
    requires !RegisterFieldsPresent(body)
    ensures Register(rows, body, env) == (Response(400, Message(MissingRegisterFields)), rows)
  {
  }

  /** A body the schema refuses gives 400 with the issues, and no change. */
  lemma RegisterInvalidInput(rows: map<string, UserRow>, body: Object, env: Env)
    requires RegisterFieldsPresent(body)
    requires Parse(Schemas.CreateUser, RegisterInput(body["email"], body["password"], body["name"], RoleOf(body).value), env.oracles).Failure?
    ensures Register(rows, body, env) ==
      (Response(400, InvalidInput(InvalidInputData,
         Parse(Schemas.CreateUser, RegisterInput(body["email"], body["password"], body["name"], RoleOf(body).value), env.oracles).error)), rows)
  {
  }

  /** Past the guard and the schema, the handler is the shared register tail on the normalised email. */
  lemma RegisterPastSchema(rows: map<string, UserRow>, body: Object, env: Env)
    requires RegisterFieldsPresent(body)
    requires Parse(Schemas.CreateUser, RegisterInput(body["email"], body["password"], body["name"], RoleOf(body).value), env.oracles).Success?
    ensures IsString(Get(body, "email")) && IsString(Get(body, "name")) && IsString(Get(body, "password"))
    ensures RegisterTry(rows, body, env) ==
      RegisterAttempt(rows, Some(NormalizeEmail(body["email"].s)), ServerHelpers.UniqueId(env.random),
                      Get(body, "email"), Get(body, "password"), Get(body, "name"), RoleOf(body), env)
  {
    RegisterInputRules(body["email"], body["password"], body["name"], RoleOf(body).value, env.oracles);
  }

  /** How the `catch` reports a database error by its code: `23505` is 400, `ECONNREFUSED` 503, any other 500. */
  lemma RegisterCaughtCodes()
    ensures RegisterCaught(DbThrown(UniqueViolation)) == Response(400, Message(DuplicateUser))
    ensures RegisterCaught(DbThrown(ConnectionRefused)) == Response(503, Message(DatabaseUnavailable))
    ensures RegisterCaught(DbThrown(OtherDbError)) == Response(500, Message(RegistrationFailed))
  {
  }

  /** A duplicate-check query that throws is reported by the `catch`, and the table is left alone. */
  lemma RegisterQueryFaults(rows: map<string, UserRow>, body: Object, env: Env)
    requires RegisterFieldsPresent(body)
    requires Parse(Schemas.CreateUser, RegisterInput(body["email"], body["password"], body["name"], RoleOf(body).value), env.oracles).Success?
    requires env.selectFault.Some?
    ensures Register(rows, body, env) == (RegisterCaught(DbThrown(env.selectFault.value)), rows)
  {
    RegisterPastSchema(rows, body, env);
  }

  /** An insert that throws is reported the same way, with no change. */
  lemma RegisterInsertFaults(rows: map<string, UserRow>, body: Object, env: Env)
    requires RegisterFieldsPresent(body)
    requires Parse(Schemas.CreateUser, RegisterInput(body["email"], body["password"], body["name"], RoleOf(body).value), env.oracles).Success?
    requires env.selectFault.None? && IsString(Get(body, "email")) && NormalizeEmail(body["email"].s) !in rows
    requires env.insertFault.Some?
    ensures Register(rows, body, env) == (RegisterCaught(DbThrown(env.insertFault.value)), rows)
  {
    RegisterPastSchema(rows, body, env);
  }

  /** A fresh id that is already taken trips the unique constraint and is reported as a duplicate user. */
  lemma RegisterIdTaken(rows: map<string, UserRow>, body: Object, env: Env)
    requires RegisterFieldsPresent(body)
    requires Parse(Schemas.CreateUser, RegisterInput(body["email"], body["password"], body["name"], RoleOf(body).value), env.oracles).Success?
    requires env.selectFault.None? && IsString(Get(body, "email")) && NormalizeEmail(body["email"].s) !in rows
    requires env.insertFault.None? && HasUserId(rows, ServerHelpers.UniqueId(env.random))
    ensures Register(rows, body, env) == (Response(400, Message(DuplicateUser)), rows)
  {
    RegisterPastSchema(rows, body, env);
  }

  /**
   * The duplicate check uses the same normalisation as the insert: an email
   * that matches a stored one once lower-cased and trimmed gives 400, and no change.
   */
  lemma RegisterDuplicate(rows: map<string, UserRow>, body: Object, env: Env, stored: string)
    requires RegisterFieldsPresent(body)
    requires Parse(Schemas.CreateUser, RegisterInput(body["email"], body["password"], body["name"], RoleOf(body).value), env.oracles).Success?
    requires env.selectFault.None? && IsString(Get(body, "email"))
    requires NormalizeEmail(stored) in rows
    requires NormalizeEmail(body["email"].s) == NormalizeEmail(stored)
    ensures Register(rows, body, env) == (Response(400, Message(DuplicateUser)), rows)
  {
    RegisterInputRules(body["email"], body["password"], body["name"], RoleOf(body).value, env.oracles);
  }

  /** Registering an upper-cased or space-prefixed variant of an email already registered is refused. */
  lemma RegisterVariantRefused(rows: map<string, UserRow>, body: Object, env: Env, registered: string)
    requires RegisterFieldsPresent(body)
    requires Parse(Schemas.CreateUser, RegisterInput(body["email"], body["password"], body["name"], RoleOf(body).value), env.oracles).Success?
    requires env.selectFault.None? && IsString(Get(body, "email"))
    requires NormalizeEmail(registered) in rows
    requires Text.ToLower(body["email"].s) == registered || body["email"].s == " " + registered
    ensures Register(rows, body, env).0 == Response(400, Message(DuplicateUser))
  {
    NormalizeEmailIgnoresCase(body["email"].s);
    NormalizeEmailIgnoresCase(registered);
    if Text.ToLower(body["email"].s) == registered {
      Text.ToLowerIdempotent(body["email"].s);
    }
    RegisterDuplicate(rows, body, env, registered);
  }

  /** Every registration answers 201, 400, 500 or 503, and only a 201 changes the table. */
  lemma RegisterOutcomes(rows: map<string, UserRow>, body: Object, env: Env)
    ensures Register(rows, body, env).0.status in {201, 400, 500, 503}
    ensures Register(rows, body, env).0.status != 201 ==> Register(rows, body, env).1 == rows
  {
    if !RegisterFieldsPresent(body) {
      RegisterMissingFields(rows, body, env);
    } else if Parse(Schemas.CreateUser, RegisterInput(body["email"], body["password"], body["name"], RoleOf(body).value), env.oracles).Failure? {
      RegisterInvalidInput(rows, body, env);
    } else {
      RegisterPastSchema(rows, body, env);
    }
  }

  /** Exactly the accepted registrations answer 201. */
  lemma RegisterCreated(rows: map<string, UserRow>, body: Object, env: Env)
    ensures Register(rows, body, env).0.status == 201 <==> RegisterAccepts(rows, body, env)
  {
    if !RegisterFieldsPresent(body) {
      RegisterMissingFields(rows, body, env);
    } else if Parse(Schemas.CreateUser, RegisterInput(body["email"], body["password"], body["name"], RoleOf(body).value), env.oracles).Failure? {
      RegisterRefusedBySchema(rows, body, env);
    } else {
      RegisterReachesDatabase(rows, body, env);
    }
  }

  lemma RegisterRefusedBySchema(rows: map<string, UserRow>, body: Object, env: Env)
    requires RegisterFieldsPresent(body)
    requires Parse(Schemas.CreateUser, RegisterInput(body["email"], body["password"], body["name"], RoleOf(body).value), env.oracles).Failure?
    ensures Register(rows, body, env).0.status == 400
    ensures !RegisterAccepts(rows, body, env)
  {
    RegisterInvalidInput(rows, body, env);
    RegisterInputRules(body["email"], body["password"], body["name"], RoleOf(body).value, env.oracles);
  }

  lemma RegisterReachesDatabase(rows: map<string, UserRow>, body: Object, env: Env)
    requires RegisterFieldsPresent(body)
    requires Parse(Schemas.CreateUser, RegisterInput(body["email"], body["password"], body["name"], RoleOf(body).value), env.oracles).Success?
    ensures Register(rows, body, env).0.status == 201 <==> RegisterAccepts(rows, body, env)
  {
    RegisterPastSchema(rows, body, env);
    var email, password, name, role := Get(body, "email"), Get(body, "password"), Get(body, "name"), RoleOf(body);
    var id := ServerHelpers.UniqueId(env.random);
    var key := NormalizeEmail(email.value.s);
    var a := RegisterAttempt(rows, Some(key), id, email, password, name, role, env);
    assert Register(rows, body, env) == (if a.Success? then a.value else (RegisterCaught(a.error), rows));
    assert RegisterAccepts(rows, body, env) <==>
      (env.selectFault.None? && env.insertFault.None? && key !in rows && !HasUserId(rows, id)) by {
      RegisterInputRules(body["email"], body["password"], body["name"], RoleOf(body).value, env.oracles);
    }
    RegisterAttemptEffect(rows, Some(key), id, email, password, name, role, env);
  }

  /**
   * An accepted registration adds one row: the email lower-cased and
   * trimmed, the name trimmed, the password verbatim, the role given or
   * `'user'`, under the fresh id; the 201 response carries that row.
   */
  lemma RegisterStores(rows: map<string, UserRow>, body: Object, env: Env)
    requires RegisterAccepts(rows, body, env)
    ensures var row := UserRow(ServerHelpers.UniqueId(env.random), NormalizeEmail(body["email"].s), Some(body["password"].s),
                               Text.Trim(body["name"].s), Some(RoleOf(body).value.s), env.nowIso);
      Register(rows, body, env) == (SessionFor(201, row, env.sign), rows[row.email := row])
  {
    assert Parse(Schemas.CreateUser, RegisterInput(body["email"], body["password"], body["name"], RoleOf(body).value), env.oracles).Success? by {
      RegisterInputRules(body["email"], body["password"], body["name"], RoleOf(body).value, env.oracles);
    }
    RegisterPastSchema(rows, body, env);
    RegisterAttemptStores(rows, Some(NormalizeEmail(body["email"].s)), ServerHelpers.UniqueId(env.random),
                          Get(body, "email"), Get(body, "password"), Get(body, "name"), RoleOf(body), env);
  }

  /** A registration keeps the table well formed. */
  lemma RegisterWellFormed(rows: map<string, UserRow>, body: Object, env: Env)
    requires WellFormed(rows)
    ensures WellFormed(Register(rows, body, env).1)
  {
    RegisterCreated(rows, body, env);
    RegisterOutcomes(rows, body, env);
    if RegisterAccepts(rows, body, env) {
      RegisterStores(rows, body, env);
      var row := UserRow(ServerHelpers.UniqueId(env.random), NormalizeEmail(body["email"].s), Some(body["password"].s),
                         Text.Trim(body["name"].s), Some(RoleOf(body).value.s), env.nowIso);
      InsertedWellFormed(rows, row, None);
    }
  }

  // ---------------------------------------------------------------------
  // /auth/login
  // ---------------------------------------------------------------------

  /** The `try` block of `/auth/login`. */
  function LoginTry(rows: map<string, UserRow>, body: Object, env: Env): Result<Response, Thrown> {
    if !LoginFieldsPresent(body) then Success(Response(400, Message(MissingLoginFields)))
    else LoginAttempt(rows, Get(body, "email"), Get(body, "password"), env)
  }

  /** The `catch` block of `/auth/login`: `ECONNREFUSED` is 503, anything else 500. */
  function LoginCaught(t: Thrown): (res: Response)
    ensures res.status in {500, 503}
  {
    if t.DbThrown? && Code(t.error) == "ECONNREFUSED" then Response(503, Message(DatabaseUnavailable))
    else Response(500, Message(LoginFailed))
  }

  function Login(rows: map<string, UserRow>, body: Object, env: Env): Response {
    match LoginTry(rows, body, env)
    case Success(res) => res
    case Failure(t) => LoginCaught(t)
  }

  /** The handler against the table; login never changes it. */
  method LoginHandler(db: UsersTable, body: Object, env: Env) returns (res: Response)
    requires db.Valid()
    ensures res == Login(db.rows, body, env)
  {
    if !LoginFieldsPresent(body) {
      return Response(400, Message(MissingLoginFields));
    }
    var r := Auth.Login(db, Get(body, "email"), Get(body, "password"), env);
    if r.Failure? {
      return LoginCaught(r.error);
    }
    return r.value;
  }

  /**
   * A login succeeds exactly when the fields are given, the email is a
   * string whose normalised form is stored and the password is `===` the
   * stored one; an unknown email and a wrong password give the same 400.
   */
  lemma LoginRule(rows: map<string, UserRow>, body: Object, env: Env)
    ensures Login(rows, body, env).status == 200 <==>
      (LoginFieldsPresent(body) && IsString(Get(body, "email")) && env.selectFault.None? &&
       NormalizeEmail(body["email"].s) in rows &&
       StrictEquals(Get(body, "password"), ColumnValue(rows[NormalizeEmail(body["email"].s)].passwordHash)))
    ensures Login(rows, body, env).status == 200 ==>
      IsString(Get(body, "email")) && NormalizeEmail(body["email"].s) in rows &&
      Login(rows, body, env) == SessionFor(200, rows[NormalizeEmail(body["email"].s)], env.sign)
    ensures (LoginFieldsPresent(body) && IsString(Get(body, "email")) && env.selectFault.None? &&
             Login(rows, body, env).status != 200) ==> Login(rows, body, env) == Response(400, Message(BadCredentials))
  {
    if LoginFieldsPresent(body) && IsString(Get(body, "email")) && env.selectFault.None? {
      LoginAttemptRule(rows, Get(body, "email"), Get(body, "password"), env);
    }
  }

  /** A connection refused at login is 503; a non-string email throws and is 500. */
  lemma LoginErrors(rows: map<string, UserRow>, body: Object, env: Env)
    requires LoginFieldsPresent(body)
    ensures !IsString(Get(body, "email")) ==> Login(rows, body, env) == Response(500, Message(LoginFailed))
    ensures IsString(Get(body, "email")) && env.selectFault == Some(ConnectionRefused) ==>
      Login(rows, body, env) == Response(503, Message(DatabaseUnavailable))
  {
  }

  /** A login naming a stored row by an email that normalises to its key, with its password verbatim, gets that row's session. */
  lemma LoginFindsRow(rows: map<string, UserRow>, login: Object, env: Env, row: UserRow, password: string)
    requires IsString(Get(login, "email")) && login["email"].s != [] && env.selectFault.None?
    requires NormalizeEmail(login["email"].s) in rows && rows[NormalizeEmail(login["email"].s)] == row
    requires row.passwordHash == Some(password) && Get(login, "password") == Some(Str(password)) && password != []
    ensures Login(rows, login, env) == SessionFor(200, row, env.sign)
  {
    assert LoginFieldsPresent(login);
    LoginAttemptFinds(rows, Get(login, "email"), password, env, row);
  }

  /**
   * Registering and then logging in with the same password and an email that
   * normalises alike yields the user the registration returned.
   */
  lemma RegisterThenLogin(rows: map<string, UserRow>, body: Object, env: Env, login: Object, env2: Env)
    requires RegisterAccepts(rows, body, env)
    requires IsString(Get(login, "email")) && Get(login, "email").value.s != []
    requires NormalizeEmail(login["email"].s) == NormalizeEmail(body["email"].s)
    requires Get(login, "password") == Get(body, "password")
    requires env2.selectFault.None? && env2.sign == env.sign
    ensures Login(Register(rows, body, env).1, login, env2) == Response(200, Register(rows, body, env).0.body)
  {
    var row := UserRow(ServerHelpers.UniqueId(env.random), NormalizeEmail(body["email"].s), Some(body["password"].s),
                       Text.Trim(body["name"].s), Some(RoleOf(body).value.s), env.nowIso);
    RegisterStores(rows, body, env);
    LoginFindsRow(rows[row.email := row], login, env2, row, body["password"].s);
  }
}
