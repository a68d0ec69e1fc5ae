/**
 * `/auth/register` and `/auth/login` of the minimal CommonJS server: the
 * same field guards and normalisation as the compiled server, no schema, a
 * user id made from the clock, and a single 500 for anything thrown.
 */
module SimpleAuth {
  import opened Wrappers
  import opened Json
  import opened UsersDb
  import opened Auth
  import Text
  import DistAuth

  /** `'user_' + Date.now()`. */
  function UserId(nowMillis: nat): (id: string)
    ensures |id| > 5 && id[..5] == "user_"
  {
    "user_" + Text.NatText(nowMillis)
  }

  /** Ids made at different milliseconds differ, and ids made in the same one coincide. */
  lemma UserIdInjective(a: nat, b: nat)
    ensures UserId(a) == UserId(b) <==> a == b
  {
    if UserId(a) == UserId(b) {
      assert Text.NatText(a) == UserId(a)[5..] && Text.NatText(b) == UserId(b)[5..];
      Text.ParseIntNatText(a);
      Text.ParseIntNatText(b);
    }
  }

  // ---------------------------------------------------------------------
  // /auth/register
  // ---------------------------------------------------------------------

  /** The `try` block. */
  function RegisterTry(rows: map<string, UserRow>, body: Object, env: Env): Result<(Response, map<string, UserRow>), Thrown> {
    var email := Get(body, "email");
    if !RegisterFieldsPresent(body) then Success((Response(400, Message(MissingRegisterFields)), rows))
    else if !IsString(email) then Failure(TypeError)
    else RegisterAttempt(rows, Some(NormalizeEmail(email.value.s)), UserId(env.nowMillis),
                         email, Get(body, "password"), Get(body, "name"), RoleOf(body), env)
  }

  /** The whole handler; the `catch` answers 500 to anything thrown. */
  function Register(rows: map<string, UserRow>, body: Object, env: Env): (r: (Response, map<string, UserRow>)) {
    match RegisterTry(rows, body, env)
    case Success(done) => done
    case Failure(_) => (Response(500, Message(RegistrationFailed)), rows)
  }

  method RegisterHandler(db: UsersTable, body: Object, env: Env) returns (res: Response)
    requires db.Valid()
    modifies db
    ensures db.Valid()
    ensures (res, db.rows) == Register(old(db.rows), body, env)
  {
    var email := Get(body, "email");
    if !RegisterFieldsPresent(body) {
      return Response(400, Message(MissingRegisterFields));
    }
    if !IsString(email) {
      return Response(500, Message(RegistrationFailed));
    }
    var r := Auth.Register(db, Some(NormalizeEmail(email.value.s)), UserId(env.nowMillis),
                           email, Get(body, "password"), Get(body, "name"), RoleOf(body), env);
    if r.Failure? {
      return Response(500, Message(RegistrationFailed));
    }
    return r.value;
  }

  /** What a registration needs to succeed: any truthy password and role will do. */
  predicate RegisterAccepts(rows: map<string, UserRow>, body: Object, env: Env) {
    RegisterFieldsPresent(body) && IsString(Get(body, "email")) && IsString(Get(body, "name")) &&
    env.selectFault.None? && env.insertFault.None? &&
    NormalizeEmail(body["email"].s) !in rows && !HasUserId(rows, UserId(env.nowMillis))
  }

  /**
   * Exactly the accepted registrations answer 201, adding the row with the
   * normalised email, the trimmed name, the clock's id and the password and
   * role as the driver sends them; every other outcome is 400 or 500 and
   * leaves the table alone.
   */
  lemma RegisterCreated(rows: map<string, UserRow>, body: Object, env: Env)
    ensures Register(rows, body, env).0.status in {201, 400, 500}
    ensures Register(rows, body, env).0.status == 201 <==> RegisterAccepts(rows, body, env)
    ensures Register(rows, body, env).0.status != 201 ==> Register(rows, body, env).1 == rows
    ensures RegisterAccepts(rows, body, env) ==>
      var row := NewRow(UserId(env.nowMillis), body["email"].s, Get(body, "password"), body["name"].s, RoleOf(body), env);
      Register(rows, body, env) == (SessionFor(201, row, env.sign), rows[row.email := row])
  {
    if RegisterFieldsPresent(body) && IsString(Get(body, "email")) {
      RegisterAttemptEffect(rows, Some(NormalizeEmail(body["email"].s)), UserId(env.nowMillis),
                            Get(body, "email"), Get(body, "password"), Get(body, "name"), RoleOf(body), env);
    }
  }

  /**
   * No second account can be made within the same millisecond: the id is
   * reused, a new email trips the unique constraint and is a 500.
   */
  lemma SameMillisecondCollides(rows: map<string, UserRow>, first: Object, second: Object, env: Env)
    requires Register(rows, first, env).0.status == 201
    ensures Register(Register(rows, first, env).1, second, env).0.status != 201
    ensures var after := Register(rows, first, env).1;
      (RegisterFieldsPresent(second) && IsString(Get(second, "email")) && IsString(Get(second, "name")) &&
       NormalizeEmail(second["email"].s) !in after) ==>
        Register(after, second, env) == (Response(500, Message(RegistrationFailed)), after)
  {
    RegisterCreated(rows, first, env);
    var after := Register(rows, first, env).1;
    var id := UserId(env.nowMillis);
    assert after[NormalizeEmail(first["email"].s)].userId == id;
    assert HasUserId(after, id);
    RegisterCreated(after, second, env);
    if RegisterFieldsPresent(second) && IsString(Get(second, "email")) && IsString(Get(second, "name")) &&
       NormalizeEmail(second["email"].s) !in after {
      var row := NewRow(id, second["email"].s, Get(second, "password"), second["name"].s, RoleOf(second), env);
      assert Inserted(after, row, env.insertFault).0 == Failure(UniqueViolation);
      assert RegisterTry(after, second, env) == Failure(DbThrown(UniqueViolation));
    }
  }

  // ---------------------------------------------------------------------
  // /auth/login
  // ---------------------------------------------------------------------

  function LoginTry(rows: map<string, UserRow>, body: Object, env: Env): Result<Response, Thrown> {
    if !LoginFieldsPresent(body) then Success(Response(400, Message(MissingLoginFields)))
    else LoginAttempt(rows, Get(body, "email"), Get(body, "password"), env)
  }

  /** The whole handler; the `catch` answers 500 to anything thrown. */
  function Login(rows: map<string, UserRow>, body: Object, env: Env): Response {
    match LoginTry(rows, body, env)
    case Success(res) => res
    case Failure(_) => Response(500, Message(LoginFailed))
  }

  method LoginHandler(db: UsersTable, body: Object, env: Env) returns (res: Response)
    requires db.Valid()
    ensures res == Login(db.rows, body, env)
  {
    if !LoginFieldsPresent(body) {
      return Response(400, Message(MissingLoginFields));
    }
    var r := Auth.Login(db, Get(body, "email"), Get(body, "password"), env);
    if r.Failure? {
      return Response(500, Message(LoginFailed));
    }
    return r.value;
  }

  /**
   * This login answers as the compiled server's does, except that a
   * refused connection is 500 here where the compiled server says 503.
   */
  lemma LoginAgreesWithCompiled(rows: map<string, UserRow>, body: Object, env: Env)
    ensures DistAuth.Login(rows, body, env).status != 503 ==> Login(rows, body, env) == DistAuth.Login(rows, body, env)
    ensures DistAuth.Login(rows, body, env).status == 503 ==> Login(rows, body, env) == Response(500, Message(LoginFailed))
  {
  }

  /** Registering with a string password and logging in with it yields the registered user. */
  lemma RegisterThenLogin(rows: map<string, UserRow>, body: Object, env: Env, login: Object, env2: Env)
    requires RegisterAccepts(rows, body, env)
    requires IsString(Get(body, "password"))
    requires IsString(Get(login, "email")) && login["email"].s != []
    requires NormalizeEmail(login["email"].s) == NormalizeEmail(body["email"].s)
    requires Get(login, "password") == Get(body, "password")
    requires env2.selectFault.None? && env2.sign == env.sign
    ensures Login(Register(rows, body, env).1, login, env2) == Response(200, Register(rows, body, env).0.body)
  {
    var row := NewRow(UserId(env.nowMillis), body["email"].s, Get(body, "password"), body["name"].s, RoleOf(body), env);
    assert Register(rows, body, env) == (SessionFor(201, row, env.sign), rows[row.email := row]) by {
      RegisterCreated(rows, body, env);
    }
    var after := rows[row.email := row];
    DistAuth.LoginFindsRow(after, login, env2, row, body["password"].s);
    LoginAgreesWithCompiled(after, login, env2);
  }

  /**
   * Nothing checks the password's type: a numeric password registers (the
   * driver stores its text), but logging in with the same body compares a
   * number with that text under `===` and is always refused.
   */
  lemma NumericPasswordLocksOut(rows: map<string, UserRow>, body: Object, env: Env, env2: Env)
    requires Register(rows, body, env).0.status == 201
    requires Get(body, "password").value.Num?
    requires env2.selectFault.None?
    ensures Login(Register(rows, body, env).1, body, env2) == Response(400, Message(BadCredentials))
  {
    RegisterCreated(rows, body, env);
    DistAuth.LoginRule(Register(rows, body, env).1, body, env2);
    LoginAgreesWithCompiled(Register(rows, body, env).1, body, env2);
  }

  /**
   * The stored text is the driver's rendering of the number, so a later
   * login that sends that text as a string is let in. (The driver's text for
   * a number, like `String(n)`, is never empty.)
   */
  lemma NumericPasswordTextLogsIn(rows: map<string, UserRow>, body: Object, env: Env, login: Object, env2: Env)
    requires Register(rows, body, env).0.status == 201
    requires Get(body, "password").value.Num? && env.paramText(body["password"]) != []
    requires IsString(Get(login, "email")) && login["email"].s != []
    requires NormalizeEmail(login["email"].s) == NormalizeEmail(body["email"].s)
    requires Get(login, "password") == Some(Str(env.paramText(body["password"])))
    requires env2.selectFault.None? && env2.sign == env.sign
    ensures Login(Register(rows, body, env).1, login, env2) == Response(200, Register(rows, body, env).0.body)
  {
    RegisterCreated(rows, body, env);
    var row := NewRow(UserId(env.nowMillis), body["email"].s, Get(body, "password"), body["name"].s, RoleOf(body), env);
    assert Register(rows, body, env) == (SessionFor(201, row, env.sign), rows[row.email := row]);
    var after := rows[row.email := row];
    DistAuth.LoginFindsRow(after, login, env2, row, env.paramText(body["password"]));
    LoginAgreesWithCompiled(after, login, env2);
  }
}
