/**
 * `/auth/register` and `/auth/login` of the TypeScript server source: the
 * whole body goes through its own `createUserInputSchema`, the duplicate
 * check uses the email as sent while the insert stores it normalised, there
 * is no field guard, and every error is reported as 500.
 */
module TsAuth {
  import opened Wrappers
  import opened Json
  import opened Schema
  import opened UsersDb
  import opened Auth
  import Schemas
  import Text
  import ServerHelpers

  const InternalError := "Internal server error"

  // ---------------------------------------------------------------------
  // /auth/register
  // ---------------------------------------------------------------------

  /** The `try` block: validate the body, check the raw email, insert the normalised one. */
  function RegisterTry(rows: map<string, UserRow>, body: Object, env: Env): Result<(Response, map<string, UserRow>), Thrown> {
    match Parse(Schemas.CreateUserTs, body, env.oracles)
    case Failure(issues) => Failure(ZodError(issues))
    case Success(_) =>
      RegisterAttempt(rows, SqlParam(Get(body, "email"), env.paramText), ServerHelpers.UniqueId(env.random),
                      Get(body, "email"), Get(body, "password"), Get(body, "name"), Get(body, "role"), env)
  }

  /** The whole handler; the `catch` answers 500 to anything thrown. */
  function Register(rows: map<string, UserRow>, body: Object, env: Env): (r: (Response, map<string, UserRow>)) {
    match RegisterTry(rows, body, env)
    case Success(done) => done
    case Failure(_) => (Response(500, Message(InternalError)), rows)
  }

  method RegisterHandler(db: UsersTable, body: Object, env: Env) returns (res: Response)
    requires db.Valid()
    modifies db
    ensures db.Valid()
    ensures (res, db.rows) == Register(old(db.rows), body, env)
  {
    var parsed := Parse(Schemas.CreateUserTs, body, env.oracles);
    if parsed.Failure? {
      return Response(500, Message(InternalError));
    }
    var r := Auth.Register(db, SqlParam(Get(body, "email"), env.paramText), ServerHelpers.UniqueId(env.random),
                           Get(body, "email"), Get(body, "password"), Get(body, "name"), Get(body, "role"), env);
    if r.Failure? {
      return Response(500, Message(InternalError));
    }
    return r.value;
  }

  /** The schema's demands on the body: an e-mail, a name of 1 to 255, a string `password_hash`, a non-empty role. */
  predicate BodyValid(body: Object, o: Oracles) {
    Schemas.EmailValue(Get(body, "email"), o) && Schemas.TextBetween(Get(body, "name"), 1, 255) &&
    IsString(Get(body, "password_hash")) && Schemas.TextAtLeast(Get(body, "role"), 1)
  }

  /** Past the schema, the handler is the shared register tail on the email as sent. */
  lemma RegisterPastSchema(rows: map<string, UserRow>, body: Object, env: Env)
    requires BodyValid(body, env.oracles)
    ensures RegisterTry(rows, body, env) ==
      RegisterAttempt(rows, Some(body["email"].s), ServerHelpers.UniqueId(env.random),
                      Get(body, "email"), Get(body, "password"), Get(body, "name"), Get(body, "role"), env)
  {
    Schemas.CreateUserTsRules(body, env.oracles);
  }

  /** Validation runs before any query, and a body it refuses is a 500 like every other failure. */
  lemma RegisterInvalidBody(rows: map<string, UserRow>, body: Object, env: Env)
    requires !BodyValid(body, env.oracles)
    ensures Register(rows, body, env) == (Response(500, Message(InternalError)), rows)
  {
    Schemas.CreateUserTsRules(body, env.oracles);
  }

  /** The duplicate check rejects exactly an email stored as sent. */
  lemma RegisterExactDuplicate(rows: map<string, UserRow>, body: Object, env: Env)
    requires BodyValid(body, env.oracles) && env.selectFault.None?
    ensures Register(rows, body, env).0 == Response(400, Message(DuplicateUser)) <==> body["email"].s in rows
    ensures body["email"].s in rows ==> Register(rows, body, env).1 == rows
  {
    RegisterPastSchema(rows, body, env);
  }

  /**
   * An email that is new as sent but whose lower-cased, trimmed form is
   * stored passes the check and trips the unique constraint: 500, no change.
   */
  lemma RegisterVariantIs500(rows: map<string, UserRow>, body: Object, env: Env)
    requires BodyValid(body, env.oracles) && env.selectFault.None? && env.insertFault.None?
    requires body["email"].s !in rows && NormalizeEmail(body["email"].s) in rows
    ensures Register(rows, body, env) == (Response(500, Message(InternalError)), rows)
  {
    RegisterPastSchema(rows, body, env);
  }

  /** What a registration needs to succeed. */
  predicate RegisterAccepts(rows: map<string, UserRow>, body: Object, env: Env) {
    BodyValid(body, env.oracles) && env.selectFault.None? && env.insertFault.None? &&
    body["email"].s !in rows && NormalizeEmail(body["email"].s) !in rows &&
    !HasUserId(rows, ServerHelpers.UniqueId(env.random))
  }

  /**
   * Exactly the accepted registrations answer 201, adding the row with the
   * normalised email, the trimmed name and the `password` field as the
   * driver sends it (`NULL` when the body has none); every other outcome is
   * 400 or 500 and leaves the table alone.
   */
  lemma RegisterCreated(rows: map<string, UserRow>, body: Object, env: Env)
    ensures Register(rows, body, env).0.status in {201, 400, 500}
    ensures Register(rows, body, env).0.status == 201 <==> RegisterAccepts(rows, body, env)
    ensures Register(rows, body, env).0.status != 201 ==> Register(rows, body, env).1 == rows
    ensures RegisterAccepts(rows, body, env) ==>
      var row := NewRow(ServerHelpers.UniqueId(env.random), body["email"].s, Get(body, "password"),
                        body["name"].s, Get(body, "role"), env);
      Register(rows, body, env) == (SessionFor(201, row, env.sign), rows[row.email := row])
  {
    if BodyValid(body, env.oracles) {
      RegisterPastSchema(rows, body, env);
      var id := ServerHelpers.UniqueId(env.random);
      RegisterAttemptEffect(rows, Some(body["email"].s), id,
                            Get(body, "email"), Get(body, "password"), Get(body, "name"), Get(body, "role"), env);
    } else {
      RegisterInvalidBody(rows, body, env);
    }
  }

  // ---------------------------------------------------------------------
  // /auth/login
  // ---------------------------------------------------------------------

  /** The handler: the shared lookup with no field guard; anything thrown is 500. */
  function Login(rows: map<string, UserRow>, body: Object, env: Env): Response {
    match LoginAttempt(rows, Get(body, "email"), Get(body, "password"), env)
    case Success(res) => res
    case Failure(_) => Response(500, Message(InternalError))
  }

  method LoginHandler(db: UsersTable, body: Object, env: Env) returns (res: Response)
    requires db.Valid()
    ensures res == Login(db.rows, body, env)
  {
    var r := Auth.Login(db, Get(body, "email"), Get(body, "password"), env);
    if r.Failure? {
      return Response(500, Message(InternalError));
    }
    return r.value;
  }

  /**
   * A login succeeds exactly when the email is a string whose normalised
   * form is stored and the password is `===` the stored one; with a string
   * email and a working connection, every failure is the same 400, and
   * otherwise (no email at all, say) it is 500.
   */
  lemma LoginRule(rows: map<string, UserRow>, body: Object, env: Env)
    ensures Login(rows, body, env).status == 200 <==>
      (IsString(Get(body, "email")) && env.selectFault.None? && NormalizeEmail(body["email"].s) in rows &&
       StrictEquals(Get(body, "password"), ColumnValue(rows[NormalizeEmail(body["email"].s)].passwordHash)))
    ensures (IsString(Get(body, "email")) && env.selectFault.None? && Login(rows, body, env).status != 200) ==>
      Login(rows, body, env) == Response(400, Message(BadCredentials))
    ensures !(IsString(Get(body, "email")) && env.selectFault.None?) ==>
      Login(rows, body, env) == Response(500, Message(InternalError))
  {
    if IsString(Get(body, "email")) && env.selectFault.None? {
      LoginAttemptRule(rows, Get(body, "email"), Get(body, "password"), env);
    }
  }

  /** Registering with a string `password` and logging in with it yields the registered user. */
  lemma RegisterThenLogin(rows: map<string, UserRow>, body: Object, env: Env, login: Object, env2: Env)
    requires Register(rows, body, env).0.status == 201
    requires IsString(Get(body, "password"))
    requires IsString(Get(login, "email")) && NormalizeEmail(login["email"].s) == NormalizeEmail(body["email"].s)
    requires Get(login, "password") == Get(body, "password")
    requires env2.selectFault.None? && env2.sign == env.sign
    ensures Login(Register(rows, body, env).1, login, env2) == Response(200, Register(rows, body, env).0.body)
  {
    RegisterCreated(rows, body, env);
    PasswordMatch(body["password"].s, Get(login, "password"));
    LoginRule(Register(rows, body, env).1, login, env2);
  }

  /**
   * The schema asks for `password_hash`, but the insert takes `password`: a
   * body without `password` stores `NULL`, and a login that sends
   * `password: null` for that email is then let in, while one that leaves the
   * password out is refused.
   */
  lemma NullPasswordLogin(rows: map<string, UserRow>, body: Object, env: Env, login: Object, env2: Env)
    requires Register(rows, body, env).0.status == 201
    requires "password" !in body
    requires IsString(Get(login, "email")) && NormalizeEmail(login["email"].s) == NormalizeEmail(body["email"].s)
    requires env2.selectFault.None? && env2.sign == env.sign
    ensures NormalizeEmail(body["email"].s) in Register(rows, body, env).1 &&
            Register(rows, body, env).1[NormalizeEmail(body["email"].s)].passwordHash.None?
    ensures Get(login, "password") == Some(Null) ==> Login(Register(rows, body, env).1, login, env2).status == 200
    ensures "password" !in login ==> Login(Register(rows, body, env).1, login, env2) == Response(400, Message(BadCredentials))
  {
    RegisterCreated(rows, body, env);
    NullRowLogin(Register(rows, body, env).1, NormalizeEmail(body["email"].s), login, env2);
  }

  /** A stored row without a password hash matches a `null` password and nothing left out. */
  lemma NullRowLogin(rows: map<string, UserRow>, key: string, login: Object, env: Env)
    requires key in rows && rows[key].passwordHash.None?
    requires IsString(Get(login, "email")) && NormalizeEmail(login["email"].s) == key && env.selectFault.None?
    ensures Get(login, "password") == Some(Null) ==> Login(rows, login, env).status == 200
    ensures "password" !in login ==> Login(rows, login, env) == Response(400, Message(BadCredentials))
  {
    LoginRule(rows, login, env);
  }
}
