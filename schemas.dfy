/**
 * The input schemas of the backend, as shapes for the `Schema` interpreter,
 * and what each accepts and produces. Apart from `createUserInputSchema`, the
 * compiled schema module and its TypeScript source define the same shapes.
 */
module Schemas {
  import opened Wrappers
  import opened Json
  import opened Schema
  import Text

  // Field builders named after the zod chains they stand for.

  /** `z.<check>()`: required, not nullable. */
  function Required(key: string, c: Check): Field { Field(key, c, false, false, None) }

  /** `z.<check>().optional()`. */
  function Optional(key: string, c: Check): Field { Field(key, c, false, true, None) }

  /** `z.<check>().nullable()`: the key must be present, `null` allowed. */
  function Nullable(key: string, c: Check): Field { Field(key, c, true, false, None) }

  /** `z.<check>().nullable().optional()`. */
  function NullableOptional(key: string, c: Check): Field { Field(key, c, true, true, None) }

  /** `z.<check>().default(d)`. */
  function Defaulting(key: string, c: Check, d: Value): Field { Field(key, c, false, false, Some(d)) }

  /** `z.<check>().optional().default(d)`. */
  function OptionalDefaulting(key: string, c: Check, d: Value): Field { Field(key, c, false, true, Some(d)) }

  /** `z.string()`, `z.string().min(lo)`, `z.string().min(lo).max(hi)`. */
  const AnyString := StringCheck(0, None, AnyText)
  function TextMin(lo: nat): Check { StringCheck(lo, None, AnyText) }
  function TextRange(lo: nat, hi: nat): Check { StringCheck(lo, Some(hi), AnyText) }

  /** `z.number().int().positive()` and `z.number().int().nonnegative()`. */
  const PositiveInt := NumberCheck(true, Positive)
  const NonnegativeInt := NumberCheck(true, Nonnegative)

  // ---------------------------------------------------------------- users

  /** `createUserInputSchema` of the compiled build. */
  const CreateUser: seq<Field> := [
    Required("email", StringCheck(0, None, EmailText)),
    Required("name", TextRange(1, 255)),
    Required("password", TextMin(6)),
    OptionalDefaulting("role", TextMin(1), Str("user"))
  ]

  /** `createUserInputSchema` of the TypeScript source: a password hash, and a role with no default. */
  const CreateUserTs: seq<Field> := [
    Required("email", StringCheck(0, None, EmailText)),
    Required("name", TextRange(1, 255)),
    Required("password_hash", AnyString),
    Required("role", TextMin(1))
  ]

  // ------------------------------------------------------------- searches

  /** The shape every `search*InputSchema` except the member search shares. */
  function Search(sortKeys: seq<string>, sortDefault: string, orderDefault: string): seq<Field> {
    [
      Optional("query", AnyString),
      Defaulting("limit", PositiveInt, Num(10.0)),
      Defaulting("offset", NonnegativeInt, Num(0.0)),
      Defaulting("sort_by", EnumCheck(sortKeys), Str(sortDefault)),
      Defaulting("sort_order", EnumCheck(["asc", "desc"]), Str(orderDefault))
    ]
  }

  const SearchUser := Search(["name", "created_at"], "created_at", "desc")
  const SearchWorkspace := Search(["name"], "name", "asc")
  const SearchChannel := Search(["name"], "name", "asc")
  const SearchMessage := Search(["sent_at"], "sent_at", "desc")
  const SearchFile := Search(["uploaded_at"], "uploaded_at", "desc")
  const SearchKanbanBoard := Search(["name"], "name", "asc")
  const SearchTask := Search(["title", "due_date"], "due_date", "asc")
  const SearchDocument := Search(["title", "last_edited_at"], "last_edited_at", "desc")
  const SearchCalendarEvent := Search(["start_time", "end_time"], "start_time", "asc")
  const SearchNotification := Search(["created_at"], "created_at", "desc")

  /** `searchWorkspaceMemberInputSchema`: paging only. */
  const SearchWorkspaceMember: seq<Field> := [
    Defaulting("limit", PositiveInt, Num(10.0)),
    Defaulting("offset", NonnegativeInt, Num(0.0))
  ]

  // ---------------------------------------------------- tasks, messages, ...

  const CreateTask: seq<Field> := [
    Required("board_id", AnyString),
    Nullable("assigned_user_id", AnyString),
    Required("title", TextRange(1, 255)),
    Nullable("description", AnyString),
    Required("status", TextMin(1)),
    Required("priority", TextMin(1)),
    Nullable("due_date", DateCheck)
  ]

  const UpdateTask: seq<Field> := [
    Required("task_id", AnyString),
    Optional("board_id", AnyString),
    NullableOptional("assigned_user_id", AnyString),
    Optional("title", TextRange(1, 255)),
    NullableOptional("description", AnyString),
    Optional("status", TextMin(1)),
    Optional("priority", TextMin(1)),
    NullableOptional("due_date", DateCheck)
  ]

  const CreateMessage: seq<Field> := [
    Required("channel_id", AnyString),
    Required("user_id", AnyString),
    Required("content", TextRange(1, 1000)),
    Required("sent_at", DateCheck),
    Required("is_read", BooleanCheck)
  ]

  const CreateNotification: seq<Field> := [
    Required("user_id", AnyString),
    Required("content", TextRange(1, 1000)),
    Required("created_at", DateCheck),
    Required("is_read", BooleanCheck)
  ]

  const CreateDocument: seq<Field> := [
    Required("workspace_id", AnyString),
    Required("title", TextRange(1, 255)),
    Required("content", TextMin(1)),
    Required("last_edited_at", DateCheck),
    Required("version", TextMin(1))
  ]

  // ----------------------------------------------------------- predicates

  /** The value is a string whose JavaScript `length` (UTF-16 code units) lies in `lo..hi`. */
  predicate TextBetween(v: Option<Value>, lo: nat, hi: nat) {
    IsString(v) && lo <= Text.Utf16Length(v.value.s) <= hi
  }

  /** The value is a string of at least `lo` UTF-16 code units. */
  predicate TextAtLeast(v: Option<Value>, lo: nat) {
    IsString(v) && lo <= Text.Utf16Length(v.value.s)
  }

  /** The value is a string the library's e-mail check accepts. */
  predicate EmailValue(v: Option<Value>, o: Oracles) {
    IsString(v) && o.isEmail(v.value.s)
  }

  /** The value is an integral JSON number meeting the sign rule. */
  predicate IntegerValue(v: Option<Value>, sign: Sign) {
    v.Some? && v.value.Num? && v.value.r == v.value.r.Floor as real &&
    (sign == Positive ==> v.value.r > 0.0) && (sign == Nonnegative ==> v.value.r >= 0.0)
  }

  /** The value is one of the given strings. */
  predicate OneOf(v: Option<Value>, options: seq<string>) {
    IsString(v) && v.value.s in options
  }

  /** The value is one `z.coerce.date()` accepts. */
  predicate DateValue(v: Option<Value>, o: Oracles) {
    v.Some? && o.coercesToDate(v.value)
  }

  /** The key is present and its value is `null` or meets `p`. */
  predicate NullOr(v: Option<Value>, p: bool) {
    v == Some(Null) || (v.Some? && p)
  }

  // --------------------------------------------------------------- lemmas

  /**
   * `createUserInputSchema` (compiled build) accepts exactly: an e-mail, a name
   * of 1 to 255 UTF-16 code units, a password of at least 6, and a role that is either
   * absent or non-empty.
   */
  lemma CreateUserRules(input: Object, o: Oracles)
    ensures Parse(CreateUser, input, o).Success? <==>
      (EmailValue(Get(input, "email"), o) &&
       TextBetween(Get(input, "name"), 1, 255) &&
       TextAtLeast(Get(input, "password"), 6) &&
       ("role" in input ==> TextAtLeast(Get(input, "role"), 1)))
  {
    ParseSucceeds(CreateUser, input, o);
    assert Parse(CreateUser, input, o).Success? <==>
      (FieldAccepts(CreateUser[0], input, o) && FieldAccepts(CreateUser[1], input, o) &&
       FieldAccepts(CreateUser[2], input, o) && FieldAccepts(CreateUser[3], input, o));
  }

  /**
   * Lengths are JavaScript lengths: three emoji are six UTF-16 code units,
   * so they meet the password's `min(6)`.
   */
  lemma PasswordCountsCodeUnits()
    ensures TextAtLeast(Some(Str("\U{1F600}\U{1F600}\U{1F600}")), 6)
  {
    Text.Utf16LengthAstral();
  }

  /** What `createUserInputSchema` (compiled build) produces: the given fields, the role `'user'` when absent. */
  lemma CreateUserOutput(input: Object, o: Oracles)
    requires Parse(CreateUser, input, o).Success?
    ensures Get(Parse(CreateUser, input, o).value, "email") == Get(input, "email")
    ensures Get(Parse(CreateUser, input, o).value, "name") == Get(input, "name")
    ensures Get(Parse(CreateUser, input, o).value, "password") == Get(input, "password")
    ensures Get(Parse(CreateUser, input, o).value, "role") ==
      (if "role" in input then Get(input, "role") else Some(Str("user")))
  {
    assert DistinctKeys(CreateUser);
    ParseKeepsValues(CreateUser, input, o);
    assert Get(Parse(CreateUser, input, o).value, CreateUser[0].key) == Get(input, "email");
    assert Get(Parse(CreateUser, input, o).value, CreateUser[1].key) == Get(input, "name");
    assert Get(Parse(CreateUser, input, o).value, CreateUser[2].key) == Get(input, "password");
    assert Defaulted(CreateUser[3], Get(input, "role")) == (if "role" in input then Get(input, "role") else Some(Str("user")));
  }

  /** The compiled build's parse always holds exactly its four keys, since the role has a default. */
  lemma CreateUserOutputKeys(input: Object, o: Oracles)
    requires Parse(CreateUser, input, o).Success?
    ensures Parse(CreateUser, input, o).value.Keys == {"email", "name", "password", "role"}
  {
    ParseKeysAll(CreateUser, input, o);
    CreateUserKeys();
  }

  lemma CreateUserKeys()
    ensures Keys(CreateUser) == {"email", "name", "password", "role"}
  {
    var keys := {"email", "name", "password", "role"};
    forall k | k in Keys(CreateUser) ensures k in keys {
      var i :| 0 <= i < |CreateUser| && CreateUser[i].key == k;
    }
    assert CreateUser[0].key in Keys(CreateUser) && CreateUser[1].key in Keys(CreateUser);
    assert CreateUser[2].key in Keys(CreateUser) && CreateUser[3].key in Keys(CreateUser);
  }

  /**
   * `createUserInputSchema` (TypeScript source) accepts exactly: an e-mail,
   * a name of 1 to 255 UTF-16 code units, any string as `password_hash` and a
   * non-empty role; it has no default.
   */
  lemma CreateUserTsRules(input: Object, o: Oracles)
    ensures Parse(CreateUserTs, input, o).Success? <==>
      (EmailValue(Get(input, "email"), o) &&
       TextBetween(Get(input, "name"), 1, 255) &&
       IsString(Get(input, "password_hash")) &&
       TextAtLeast(Get(input, "role"), 1))
  {
    ParseSucceeds(CreateUserTs, input, o);
    assert Parse(CreateUserTs, input, o).Success? <==>
      (FieldAccepts(CreateUserTs[0], input, o) && FieldAccepts(CreateUserTs[1], input, o) &&
       FieldAccepts(CreateUserTs[2], input, o) && FieldAccepts(CreateUserTs[3], input, o));
  }

  /** What `createUserInputSchema` (TypeScript source) produces: the input restricted to its four keys. */
  lemma CreateUserTsOutput(input: Object, o: Oracles)
    requires Parse(CreateUserTs, input, o).Success?
    ensures Parse(CreateUserTs, input, o).value == Pick(input, {"email", "name", "password_hash", "role"})
  {
    ParseStrips(CreateUserTs, input, o);
    CreateUserTsKeys();
  }

  lemma CreateUserTsKeys()
    ensures Keys(CreateUserTs) == {"email", "name", "password_hash", "role"}
  {
    var keys := {"email", "name", "password_hash", "role"};
    forall k | k in Keys(CreateUserTs) ensures k in keys {
      var i :| 0 <= i < |CreateUserTs| && CreateUserTs[i].key == k;
    }
    assert CreateUserTs[0].key in Keys(CreateUserTs) && CreateUserTs[1].key in Keys(CreateUserTs);
    assert CreateUserTs[2].key in Keys(CreateUserTs) && CreateUserTs[3].key in Keys(CreateUserTs);
  }

  /**
   * What every search schema accepts: each field may be absent; when given,
   * `query` is a string, `limit` a positive and `offset` a non-negative integer,
   * `sort_by` one of the sort keys and `sort_order` `asc` or `desc`.
   */
  lemma SearchRules(sortKeys: seq<string>, sortDefault: string, orderDefault: string, input: Object, o: Oracles)
    requires sortDefault in sortKeys
    requires orderDefault == "asc" || orderDefault == "desc"
    ensures Parse(Search(sortKeys, sortDefault, orderDefault), input, o).Success? <==>
      (("query" in input ==> IsString(Get(input, "query"))) &&
       ("limit" in input ==> IntegerValue(Get(input, "limit"), Positive)) &&
       ("offset" in input ==> IntegerValue(Get(input, "offset"), Nonnegative)) &&
       ("sort_by" in input ==> OneOf(Get(input, "sort_by"), sortKeys)) &&
       ("sort_order" in input ==> OneOf(Get(input, "sort_order"), ["asc", "desc"])))
  {
    var fields := Search(sortKeys, sortDefault, orderDefault);
    SearchFieldRules(sortKeys, sortDefault, orderDefault, input, o);
    ParseSucceeds(fields, input, o);
    assert Parse(fields, input, o).Success? <==>
      (FieldAccepts(fields[0], input, o) && FieldAccepts(fields[1], input, o) &&
       FieldAccepts(fields[2], input, o) && FieldAccepts(fields[3], input, o) &&
       FieldAccepts(fields[4], input, o));
  }

  /** The search fields, their keys and their defaults. */
  lemma SearchShape(sortKeys: seq<string>, sortDefault: string, orderDefault: string)
    ensures var fields := Search(sortKeys, sortDefault, orderDefault);
      DistinctKeys(fields) && |fields| == 5 &&
      (forall i :: 0 <= i < 5 ==> PassesThrough(fields[i].check)) &&
      fields[0].key == "query" && fields[0].default.None? &&
      fields[1].key == "limit" && fields[1].default == Some(Num(10.0)) &&
      fields[2].key == "offset" && fields[2].default == Some(Num(0.0)) &&
      fields[3].key == "sort_by" && fields[3].default == Some(Str(sortDefault)) &&
      fields[4].key == "sort_order" && fields[4].default == Some(Str(orderDefault))
  {
  }

  /** The rule of each search field on its own. */
  lemma SearchFieldRules(sortKeys: seq<string>, sortDefault: string, orderDefault: string, input: Object, o: Oracles)
    requires sortDefault in sortKeys
    requires orderDefault == "asc" || orderDefault == "desc"
    ensures var fields := Search(sortKeys, sortDefault, orderDefault);
      (FieldAccepts(fields[0], input, o) <==> ("query" in input ==> IsString(Get(input, "query")))) &&
      (FieldAccepts(fields[1], input, o) <==> ("limit" in input ==> IntegerValue(Get(input, "limit"), Positive))) &&
      (FieldAccepts(fields[2], input, o) <==> ("offset" in input ==> IntegerValue(Get(input, "offset"), Nonnegative))) &&
      (FieldAccepts(fields[3], input, o) <==> ("sort_by" in input ==> OneOf(Get(input, "sort_by"), sortKeys))) &&
      (FieldAccepts(fields[4], input, o) <==> ("sort_order" in input ==> OneOf(Get(input, "sort_order"), ["asc", "desc"])))
  {
  }

  /** A search keeps each given field and fills in the default of each absent one. */
  lemma SearchOutput(sortKeys: seq<string>, sortDefault: string, orderDefault: string, input: Object, o: Oracles)
    requires Parse(Search(sortKeys, sortDefault, orderDefault), input, o).Success?
    ensures
      var out := Parse(Search(sortKeys, sortDefault, orderDefault), input, o).value;
      Get(out, "query") == Get(input, "query") &&
      Get(out, "limit") == (if "limit" in input then Get(input, "limit") else Some(Num(10.0))) &&
      Get(out, "offset") == (if "offset" in input then Get(input, "offset") else Some(Num(0.0))) &&
      Get(out, "sort_by") == (if "sort_by" in input then Get(input, "sort_by") else Some(Str(sortDefault))) &&
      Get(out, "sort_order") == (if "sort_order" in input then Get(input, "sort_order") else Some(Str(orderDefault)))
    ensures Parse(Search(sortKeys, sortDefault, orderDefault), input, o).value.Keys <=
      {"query", "limit", "offset", "sort_by", "sort_order"}
  {
    var fields := Search(sortKeys, sortDefault, orderDefault);
    SearchShape(sortKeys, sortDefault, orderDefault);
    ParseKeepsValues(fields, input, o);
    ParseKeysDeclared(fields, input, o);
    forall k | k in Parse(fields, input, o).value ensures k in {"query", "limit", "offset", "sort_by", "sort_order"} {
      var i :| 0 <= i < |fields| && fields[i].key == k;
    }
  }

  /**
   * A query naming none of the search fields gives every search's defaults:
   * limit 10, offset 0, its sort key and order, and no `query`.
   */
  lemma SearchDefaults(sortKeys: seq<string>, sortDefault: string, orderDefault: string, input: Object, o: Oracles)
    requires sortDefault in sortKeys
    requires orderDefault == "asc" || orderDefault == "desc"
    requires "query" !in input && "limit" !in input && "offset" !in input && "sort_by" !in input && "sort_order" !in input
    ensures Parse(Search(sortKeys, sortDefault, orderDefault), input, o).Success?
    ensures
      var out := Parse(Search(sortKeys, sortDefault, orderDefault), input, o).value;
      "query" !in out &&
      Get(out, "limit") == Some(Num(10.0)) && Get(out, "offset") == Some(Num(0.0)) &&
      Get(out, "sort_by") == Some(Str(sortDefault)) && Get(out, "sort_order") == Some(Str(orderDefault))
  {
    SearchRules(sortKeys, sortDefault, orderDefault, input, o);
    SearchOutput(sortKeys, sortDefault, orderDefault, input, o);
  }

  /** `searchUserInputSchema`: the search rules with sort keys `name`, `created_at`, sorted by `created_at` descending by default. */
  lemma SearchUserRules(input: Object, o: Oracles)
    ensures Parse(SearchUser, input, o).Success? <==>
      (("query" in input ==> IsString(Get(input, "query"))) &&
       ("limit" in input ==> IntegerValue(Get(input, "limit"), Positive)) &&
       ("offset" in input ==> IntegerValue(Get(input, "offset"), Nonnegative)) &&
       ("sort_by" in input ==> OneOf(Get(input, "sort_by"), ["name", "created_at"])) &&
       ("sort_order" in input ==> OneOf(Get(input, "sort_order"), ["asc", "desc"])))
    ensures Parse(SearchUser, map[], o).Success?
    ensures
      var out := Parse(SearchUser, map[], o).value;
      Get(out, "limit") == Some(Num(10.0)) && Get(out, "offset") == Some(Num(0.0)) &&
      Get(out, "sort_by") == Some(Str("created_at")) && Get(out, "sort_order") == Some(Str("desc"))
  {
    SearchRules(["name", "created_at"], "created_at", "desc", input, o);
    SearchDefaults(["name", "created_at"], "created_at", "desc", map[], o);
  }

  /** Workspace, channel, board, task and calendar searches sort ascending by default. */
  lemma SortOrderAscending(o: Oracles)
    ensures Parse(SearchWorkspace, map[], o).Success? && Get(Parse(SearchWorkspace, map[], o).value, "sort_order") == Some(Str("asc"))
    ensures Parse(SearchChannel, map[], o).Success? && Get(Parse(SearchChannel, map[], o).value, "sort_order") == Some(Str("asc"))
    ensures Parse(SearchKanbanBoard, map[], o).Success? && Get(Parse(SearchKanbanBoard, map[], o).value, "sort_order") == Some(Str("asc"))
    ensures Parse(SearchTask, map[], o).Success? && Get(Parse(SearchTask, map[], o).value, "sort_order") == Some(Str("asc"))
    ensures Parse(SearchCalendarEvent, map[], o).Success? && Get(Parse(SearchCalendarEvent, map[], o).value, "sort_order") == Some(Str("asc"))
  {
    var none: Object := map[];
    SearchDefaults(["name"], "name", "asc", none, o);
    SearchDefaults(["title", "due_date"], "due_date", "asc", none, o);
    SearchDefaults(["start_time", "end_time"], "start_time", "asc", none, o);
  }

  /** File, message, document, notification and user searches sort descending by default. */
  lemma SortOrderDescending(o: Oracles)
    ensures Parse(SearchFile, map[], o).Success? && Get(Parse(SearchFile, map[], o).value, "sort_order") == Some(Str("desc"))
    ensures Parse(SearchMessage, map[], o).Success? && Get(Parse(SearchMessage, map[], o).value, "sort_order") == Some(Str("desc"))
    ensures Parse(SearchDocument, map[], o).Success? && Get(Parse(SearchDocument, map[], o).value, "sort_order") == Some(Str("desc"))
    ensures Parse(SearchNotification, map[], o).Success? && Get(Parse(SearchNotification, map[], o).value, "sort_order") == Some(Str("desc"))
    ensures Parse(SearchUser, map[], o).Success? && Get(Parse(SearchUser, map[], o).value, "sort_order") == Some(Str("desc"))
  {
    var none: Object := map[];
    SearchDefaults(["uploaded_at"], "uploaded_at", "desc", none, o);
    SearchDefaults(["sent_at"], "sent_at", "desc", none, o);
    SearchDefaults(["title", "last_edited_at"], "last_edited_at", "desc", none, o);
    SearchDefaults(["created_at"], "created_at", "desc", none, o);
    SearchDefaults(["name", "created_at"], "created_at", "desc", none, o);
  }

  /** The member search has only `limit` and `offset`, with the usual rules and defaults. */
  lemma SearchWorkspaceMemberRules(input: Object, o: Oracles)
    ensures Parse(SearchWorkspaceMember, input, o).Success? <==>
      (("limit" in input ==> IntegerValue(Get(input, "limit"), Positive)) &&
       ("offset" in input ==> IntegerValue(Get(input, "offset"), Nonnegative)))
    ensures Parse(SearchWorkspaceMember, input, o).Success? ==>
      var out := Parse(SearchWorkspaceMember, input, o).value;
      out.Keys == {"limit", "offset"} &&
      Get(out, "limit") == (if "limit" in input then Get(input, "limit") else Some(Num(10.0))) &&
      Get(out, "offset") == (if "offset" in input then Get(input, "offset") else Some(Num(0.0)))
  {
    var r := Parse(SearchWorkspaceMember, input, o);
    ParseSucceeds(SearchWorkspaceMember, input, o);
    assert r.Success? <==> (FieldAccepts(SearchWorkspaceMember[0], input, o) && FieldAccepts(SearchWorkspaceMember[1], input, o));
    if r.Success? {
      ParseKeepsValues(SearchWorkspaceMember, input, o);
      ParseKeysDeclared(SearchWorkspaceMember, input, o);
      forall k | k in r.value ensures k in {"limit", "offset"} {
        var i :| 0 <= i < |SearchWorkspaceMember| && SearchWorkspaceMember[i].key == k;
      }
      assert Get(r.value, SearchWorkspaceMember[0].key).Some? && Get(r.value, SearchWorkspaceMember[1].key).Some?;
    }
  }

  /**
   * `createTaskInputSchema` accepts exactly: a board id string, a title of 1 to
   * 255 UTF-16 code units, non-empty status and priority, and `assigned_user_id`,
   * `description`, `due_date` each present as `null` or a value of its type.
   */
  lemma CreateTaskRules(input: Object, o: Oracles)
    ensures Parse(CreateTask, input, o).Success? <==>
      (IsString(Get(input, "board_id")) &&
       NullOr(Get(input, "assigned_user_id"), IsString(Get(input, "assigned_user_id"))) &&
       TextBetween(Get(input, "title"), 1, 255) &&
       NullOr(Get(input, "description"), IsString(Get(input, "description"))) &&
       TextAtLeast(Get(input, "status"), 1) &&
       TextAtLeast(Get(input, "priority"), 1) &&
       NullOr(Get(input, "due_date"), DateValue(Get(input, "due_date"), o)))
  {
    CreateTaskFieldRules(input, o);
    ParseSucceeds(CreateTask, input, o);
    assert Parse(CreateTask, input, o).Success? <==>
      (FieldAccepts(CreateTask[0], input, o) && FieldAccepts(CreateTask[1], input, o) &&
       FieldAccepts(CreateTask[2], input, o) && FieldAccepts(CreateTask[3], input, o) &&
       FieldAccepts(CreateTask[4], input, o) && FieldAccepts(CreateTask[5], input, o) &&
       FieldAccepts(CreateTask[6], input, o));
  }

  /** The rule of each task field on its own. */
  lemma CreateTaskFieldRules(input: Object, o: Oracles)
    ensures FieldAccepts(CreateTask[0], input, o) <==> IsString(Get(input, "board_id"))
    ensures FieldAccepts(CreateTask[1], input, o) <==> NullOr(Get(input, "assigned_user_id"), IsString(Get(input, "assigned_user_id")))
    ensures FieldAccepts(CreateTask[2], input, o) <==> TextBetween(Get(input, "title"), 1, 255)
    ensures FieldAccepts(CreateTask[3], input, o) <==> NullOr(Get(input, "description"), IsString(Get(input, "description")))
    ensures FieldAccepts(CreateTask[4], input, o) <==> TextAtLeast(Get(input, "status"), 1)
    ensures FieldAccepts(CreateTask[5], input, o) <==> TextAtLeast(Get(input, "priority"), 1)
    ensures FieldAccepts(CreateTask[6], input, o) <==> NullOr(Get(input, "due_date"), DateValue(Get(input, "due_date"), o))
  {
  }

  /**
   * `updateTaskInputSchema` requires a string `task_id`; every other field may
   * be absent, and a field that is given must meet the rule `createTaskInputSchema`
   * sets for it.
   */
  lemma UpdateTaskRules(input: Object, o: Oracles)
    ensures Parse(UpdateTask, input, o).Success? <==>
      (IsString(Get(input, "task_id")) &&
       forall j :: 0 <= j < |CreateTask| && CreateTask[j].key in input ==> FieldAccepts(CreateTask[j], input, o))
  {
    var rest := UpdateTask[1..];
    ParseFirst(UpdateTask, input, o);
    ParseSucceeds(rest, input, o);
    assert FieldAccepts(UpdateTask[0], input, o) <==> IsString(Get(input, "task_id"));
    forall j | 0 <= j < |CreateTask|
      ensures (CreateTask[j].key in input ==> FieldAccepts(CreateTask[j], input, o)) <==> FieldAccepts(rest[j], input, o)
    {
      assert rest[j] == CreateTask[j].(optional := true);
      MadeOptional(CreateTask[j], input, o);
    }
  }

  /** An update naming only the task is accepted and passes through unchanged. */
  lemma UpdateTaskIdOnly(t: string, o: Oracles)
    ensures Parse(UpdateTask, map["task_id" := Str(t)], o) == Success(map["task_id" := Str(t)])
  {
    var one: Object := map["task_id" := Str(t)];
    var rest := UpdateTask[1..];
    assert forall j :: 0 <= j < |rest| ==> rest[j].optional && rest[j].default.None? && rest[j].key !in one;
    ParseAllAbsent(rest, one, o);
    assert ParseField(UpdateTask[0], Get(one, "task_id"), o) == Success(Some(Str(t)));
    var none: Object := map[];
    assert none["task_id" := Str(t)] == one;
  }

  /** Message content is 1 to 1000 UTF-16 code units; the other fields are as declared. */
  lemma MessageContentBounds(input: Object, o: Oracles)
    ensures Parse(CreateMessage, input, o).Success? <==>
      (IsString(Get(input, "channel_id")) && IsString(Get(input, "user_id")) &&
       TextBetween(Get(input, "content"), 1, 1000) &&
       DateValue(Get(input, "sent_at"), o) &&
       Get(input, "is_read").Some? && Get(input, "is_read").value.Bool?)
  {
    ParseSucceeds(CreateMessage, input, o);
    assert Parse(CreateMessage, input, o).Success? <==>
      (FieldAccepts(CreateMessage[0], input, o) && FieldAccepts(CreateMessage[1], input, o) &&
       FieldAccepts(CreateMessage[2], input, o) && FieldAccepts(CreateMessage[3], input, o) &&
       FieldAccepts(CreateMessage[4], input, o));
  }

  /** Notification content has the same bounds; the other fields are as declared. */
  lemma NotificationContentBounds(input: Object, o: Oracles)
    ensures Parse(CreateNotification, input, o).Success? <==>
      (IsString(Get(input, "user_id")) &&
       TextBetween(Get(input, "content"), 1, 1000) &&
       DateValue(Get(input, "created_at"), o) &&
       Get(input, "is_read").Some? && Get(input, "is_read").value.Bool?)
  {
    ParseSucceeds(CreateNotification, input, o);
    assert Parse(CreateNotification, input, o).Success? <==>
      (FieldAccepts(CreateNotification[0], input, o) && FieldAccepts(CreateNotification[1], input, o) &&
       FieldAccepts(CreateNotification[2], input, o) && FieldAccepts(CreateNotification[3], input, o));
  }

  /** `createDocumentInputSchema`: title 1 to 255 UTF-16 code units, content and version non-empty. */
  lemma CreateDocumentRules(input: Object, o: Oracles)
    ensures Parse(CreateDocument, input, o).Success? <==>
      (IsString(Get(input, "workspace_id")) &&
       TextBetween(Get(input, "title"), 1, 255) &&
       TextAtLeast(Get(input, "content"), 1) &&
       DateValue(Get(input, "last_edited_at"), o) &&
       TextAtLeast(Get(input, "version"), 1))
  {
    ParseSucceeds(CreateDocument, input, o);
    assert Parse(CreateDocument, input, o).Success? <==>
      (FieldAccepts(CreateDocument[0], input, o) && FieldAccepts(CreateDocument[1], input, o) &&
       FieldAccepts(CreateDocument[2], input, o) && FieldAccepts(CreateDocument[3], input, o) &&
       FieldAccepts(CreateDocument[4], input, o));
  }
}
