/**
 * The part of the zod validation library that the input schemas use:
 * `z.object` over fields built from `z.string()` (with `.min`, `.max`,
 * `.email`, `.url`), `z.number()` (with `.int`, `.positive`,
 * `.nonnegative`), `z.boolean()`, `z.enum`, `z.coerce.date()` and
 * `z.object({}).passthrough()`, each optionally wrapped in `.nullable()`,
 * `.optional()` and `.default(...)`.
 */
module Schema {
  import opened Wrappers
  import opened Json
  import Text

  /**
   * Library behaviour kept opaque: zod's e-mail and URL syntax checks, and
   * whether `new Date(v)` gives a valid date for a given value `v` (used by
   * `z.coerce.date()`; `new Date(undefined)` is always an invalid date).
   */
  datatype Oracles = Oracles(isEmail: string -> bool, isUrl: string -> bool, coercesToDate: Value -> bool)

  datatype Format = AnyText | EmailText | UrlText

  datatype Sign = AnySign | Positive | Nonnegative

  /** The base type of a field and the refinements chained on it. */
  datatype Check =
    | StringCheck(min: nat, max: Option<nat>, format: Format)
    | NumberCheck(integer: bool, sign: Sign)
    | BooleanCheck
    | EnumCheck(options: seq<string>)
    | DateCheck
    | ObjectCheck

  /**
   * One entry of a `z.object` shape. `nullable` is `.nullable()`, `optional`
   * is `.optional()`, `default` is `.default(d)` (outermost).
   */
  datatype Field = Field(key: string, check: Check, nullable: bool, optional: bool, default: Option<Value>)

  datatype IssueKind = Required | InvalidType | TooSmall | TooBig | InvalidFormat | InvalidEnum | NotInteger | InvalidDate

  /** A zod issue: the path (one key here) and what was wrong. */
  datatype Issue = Issue(key: string, kind: IssueKind)

  /** The issue zod reports when a value is not of the expected JSON type. */
  function TypeIssue(v: Option<Value>): IssueKind {
    if v.None? then Required else InvalidType
  }

  /**
   * `z.string()` with its refinements. `.min` and `.max` compare the
   * JavaScript `length`, which counts UTF-16 code units.
   */
  function CheckString(min: nat, max: Option<nat>, format: Format, v: Option<Value>, o: Oracles): (r: Result<Value, IssueKind>)
    ensures r.Success? <==>
      (IsString(v) && min <= Text.Utf16Length(v.value.s) && (max.None? || Text.Utf16Length(v.value.s) <= max.value) &&
       (format == EmailText ==> o.isEmail(v.value.s)) && (format == UrlText ==> o.isUrl(v.value.s)))
    ensures r.Success? ==> r.value == v.value
  {
    if !IsString(v) then Failure(TypeIssue(v))
    else
      var s := v.value.s;
      if Text.Utf16Length(s) < min then Failure(TooSmall)
      else if max.Some? && Text.Utf16Length(s) > max.value then Failure(TooBig)
      else if format == EmailText && !o.isEmail(s) then Failure(InvalidFormat)
      else if format == UrlText && !o.isUrl(s) then Failure(InvalidFormat)
      else Success(Str(s))
  }

  function CheckNumber(integer: bool, sign: Sign, v: Option<Value>): (r: Result<Value, IssueKind>)
    ensures r.Success? <==>
      (v.Some? && v.value.Num? && (integer ==> v.value.r == v.value.r.Floor as real) &&
       (sign == Positive ==> v.value.r > 0.0) && (sign == Nonnegative ==> v.value.r >= 0.0))
    ensures r.Success? ==> r.value == v.value
  {
    if !(v.Some? && v.value.Num?) then Failure(TypeIssue(v))
    else
      var x := v.value.r;
      if integer && x != x.Floor as real then Failure(NotInteger)
      else if sign == Positive && x <= 0.0 then Failure(TooSmall)
      else if sign == Nonnegative && x < 0.0 then Failure(TooSmall)
      else Success(Num(x))
  }

  /**
   * The base check on a value that no wrapper has accepted. A coerced date
   * yields a `Date` object, so its output is `Obj`.
   */
  function CheckBase(c: Check, v: Option<Value>, o: Oracles): Result<Value, IssueKind> {
    match c
    case StringCheck(min, max, format) => CheckString(min, max, format, v, o)
    case NumberCheck(integer, sign) => CheckNumber(integer, sign, v)
    case BooleanCheck =>
      if v.Some? && v.value.Bool? then Success(v.value) else Failure(TypeIssue(v))
    case EnumCheck(options) =>
      if !IsString(v) then Failure(TypeIssue(v))
      else if v.value.s in options then Success(v.value)
      else Failure(InvalidEnum)
    case DateCheck =>
      if v.Some? && o.coercesToDate(v.value) then Success(Obj) else Failure(InvalidDate)
    case ObjectCheck =>
      if v == Some(Obj) then Success(Obj) else Failure(TypeIssue(v))
  }

  /** The value a field actually parses: the default replaces `undefined`, and only `undefined`. */
  function Defaulted(f: Field, v: Option<Value>): Option<Value> {
    if v.None? && f.default.Some? then f.default else v
  }

  /**
   * One field: `.default` first, then `.optional` lets `undefined` through,
   * `.nullable` lets `null` through, and anything else meets the base check.
   * `Success(None)` means the output object has no such key.
   */
  function ParseField(f: Field, v: Option<Value>, o: Oracles): Result<Option<Value>, IssueKind> {
    var w := Defaulted(f, v);
    if w.None? && f.optional then Success(None)
    else if w == Some(Null) && f.nullable then Success(w)
    else
      match CheckBase(f.check, w, o)
      case Success(x) => Success(Some(x))
      case Failure(k) => Failure(k)
  }

  /** The field accepts what it is given under its key. */
  predicate FieldAccepts(f: Field, input: Object, o: Oracles) {
    ParseField(f, Get(input, f.key), o).Success?
  }

  /**
   * `z.object(shape).parse(input)`: every field is parsed, all issues are
   * collected in shape order, unknown keys are stripped.
   */
  function Parse(fields: seq<Field>, input: Object, o: Oracles): (r: Result<Object, seq<Issue>>)
    ensures r.Failure? ==> |r.error| > 0
  {
    if fields == [] then Success(map[])
    else
      var f := fields[0];
      var head := ParseField(f, Get(input, f.key), o);
      var tail := Parse(fields[1..], input, o);
      match head
      case Failure(kind) =>
        Failure([Issue(f.key, kind)] + (if tail.Failure? then tail.error else []))
      case Success(x) =>
        match tail
        case Failure(issues) => Failure(issues)
        case Success(out) => Success(if x.Some? then out[f.key := x.value] else out - {f.key})
  }

  /** A parse succeeds exactly when every field accepts what it is given. */
  lemma {:induction false} ParseSucceeds(fields: seq<Field>, input: Object, o: Oracles)
    ensures Parse(fields, input, o).Success? <==> forall i :: 0 <= i < |fields| ==> FieldAccepts(fields[i], input, o)
  {
    if fields != [] {
      ParseSucceeds(fields[1..], input, o);
      assert forall i :: 1 <= i < |fields| ==> fields[i] == fields[1..][i - 1];
    }
  }

  /** A parse succeeds exactly when its first field accepts and the rest of the shape parses. */
  lemma ParseFirst(fields: seq<Field>, input: Object, o: Oracles)
    requires fields != []
    ensures Parse(fields, input, o).Success? <==> FieldAccepts(fields[0], input, o) && Parse(fields[1..], input, o).Success?
  {
  }

  /** `.optional()` on a field without a default accepts an absent key and otherwise what the field accepts. */
  lemma MadeOptional(f: Field, input: Object, o: Oracles)
    requires f.default.None?
    ensures FieldAccepts(f.(optional := true), input, o) <==> (f.key in input ==> FieldAccepts(f, input, o))
  {
  }

  /** When every field is optional, has no default and is absent, the parse yields the empty object. */
  lemma {:induction false} ParseAllAbsent(fields: seq<Field>, input: Object, o: Oracles)
    requires forall i :: 0 <= i < |fields| ==> fields[i].optional && fields[i].default.None? && fields[i].key !in input
    ensures Parse(fields, input, o) == Success(map[])
  {
    if fields != [] {
      assert forall i :: 0 <= i < |fields| - 1 ==> fields[1..][i] == fields[i + 1];
      ParseAllAbsent(fields[1..], input, o);
      var none: Object := map[];
      assert none - {fields[0].key} == none;
    }
  }

  /** A successful parse holds no key the shape does not declare. */
  lemma {:induction false} ParseKeysDeclared(fields: seq<Field>, input: Object, o: Oracles)
    requires Parse(fields, input, o).Success?
    ensures forall k :: k in Parse(fields, input, o).value ==> exists i :: 0 <= i < |fields| && fields[i].key == k
  {
    if fields != [] {
      ParseKeysDeclared(fields[1..], input, o);
      forall k | k in Parse(fields, input, o).value ensures exists i :: 0 <= i < |fields| && fields[i].key == k {
        if k != fields[0].key {
          var j :| 0 <= j < |fields| - 1 && fields[1..][j].key == k;
          assert fields[j + 1].key == k;
        }
      }
    }
  }

  /** The keys of a shape are distinct, as in an object literal. */
  predicate DistinctKeys(fields: seq<Field>) {
    forall i, j :: 0 <= i < j < |fields| ==> fields[i].key != fields[j].key
  }

  /**
   * On success every field's key holds exactly what that field parsed to:
   * the given value, the default when the key was absent, or nothing.
   */
  lemma {:induction false} ParseOutput(fields: seq<Field>, input: Object, o: Oracles, i: nat)
    requires DistinctKeys(fields)
    requires i < |fields|
    requires Parse(fields, input, o).Success?
    ensures ParseField(fields[i], Get(input, fields[i].key), o).Success?
    ensures Get(Parse(fields, input, o).value, fields[i].key) ==
            ParseField(fields[i], Get(input, fields[i].key), o).value
  {
    var f := fields[0];
    var tail := Parse(fields[1..], input, o);
    assert tail.Success?;
    if i > 0 {
      assert fields[1..][i - 1] == fields[i];
      assert DistinctKeys(fields[1..]) by {
        forall a, b | 0 <= a < b < |fields| - 1 ensures fields[1..][a].key != fields[1..][b].key {
          assert fields[1..][a] == fields[a + 1] && fields[1..][b] == fields[b + 1];
        }
      }
      ParseOutput(fields[1..], input, o, i - 1);
      assert f.key != fields[i].key;
    }
  }

  /** The forall form of `ParseOutput`. */
  lemma ParseOutputs(fields: seq<Field>, input: Object, o: Oracles)
    requires DistinctKeys(fields)
    requires Parse(fields, input, o).Success?
    ensures forall i :: 0 <= i < |fields| ==>
      FieldAccepts(fields[i], input, o) &&
      Get(Parse(fields, input, o).value, fields[i].key) == ParseField(fields[i], Get(input, fields[i].key), o).value
  {
    forall i | 0 <= i < |fields|
      ensures FieldAccepts(fields[i], input, o) &&
        Get(Parse(fields, input, o).value, fields[i].key) == ParseField(fields[i], Get(input, fields[i].key), o).value
    {
      ParseOutput(fields, input, o, i);
    }
  }

  /** The check hands back the value it accepts (every check but date coercion). */
  predicate PassesThrough(c: Check) {
    !c.DateCheck?
  }

  /** A pass-through field that accepts yields the given value, or its default when the key is absent. */
  lemma PassThroughField(f: Field, v: Option<Value>, o: Oracles)
    requires PassesThrough(f.check)
    requires ParseField(f, v, o).Success?
    ensures ParseField(f, v, o).value == Defaulted(f, v)
  {
  }

  /**
   * Over pass-through fields, a successful parse holds under each key what
   * was given, or the default when the key was absent.
   */
  lemma ParseKeepsValues(fields: seq<Field>, input: Object, o: Oracles)
    requires DistinctKeys(fields)
    requires forall i :: 0 <= i < |fields| ==> PassesThrough(fields[i].check)
    requires Parse(fields, input, o).Success?
    ensures forall i :: 0 <= i < |fields| ==>
      Get(Parse(fields, input, o).value, fields[i].key) == Defaulted(fields[i], Get(input, fields[i].key))
  {
    forall i | 0 <= i < |fields|
      ensures Get(Parse(fields, input, o).value, fields[i].key) == Defaulted(fields[i], Get(input, fields[i].key))
    {
      ParseOutput(fields, input, o, i);
      PassThroughField(fields[i], Get(input, fields[i].key), o);
    }
  }

  /** The keys a shape declares. */
  function Keys(fields: seq<Field>): (ks: set<string>)
    ensures forall i :: 0 <= i < |fields| ==> fields[i].key in ks
    ensures forall k :: k in ks ==> exists i :: 0 <= i < |fields| && fields[i].key == k
  {
    set i | 0 <= i < |fields| :: fields[i].key
  }

  /**
   * Over pass-through fields without defaults, a successful parse is the
   * input with every undeclared key stripped.
   */
  lemma {:induction false} ParseStrips(fields: seq<Field>, input: Object, o: Oracles)
    requires forall i :: 0 <= i < |fields| ==> PassesThrough(fields[i].check) && fields[i].default.None?
    requires Parse(fields, input, o).Success?
    ensures Parse(fields, input, o).value == Pick(input, Keys(fields))
  {
    if fields != [] {
      var f := fields[0];
      var rest := fields[1..];
      assert forall i :: 0 <= i < |rest| ==> rest[i] == fields[i + 1];
      ParseStrips(rest, input, o);
      var out := Parse(rest, input, o).value;
      KeysFirst(fields);
      PassThroughField(f, Get(input, f.key), o);
      if f.key in input {
        PickPresent(input, f.key, Keys(rest));
      } else {
        PickAbsent(input, f.key, Keys(rest));
      }
    }
  }

  /** The keys of a shape are its first key and the keys of the rest. */
  lemma KeysFirst(fields: seq<Field>)
    requires fields != []
    ensures Keys(fields) == {fields[0].key} + Keys(fields[1..])
  {
    var rest := fields[1..];
    forall k | k in Keys(fields) ensures k in {fields[0].key} + Keys(rest) {
      var i :| 0 <= i < |fields| && fields[i].key == k;
      if i > 0 { assert rest[i - 1].key == k; }
    }
    forall k | k in Keys(rest) ensures k in Keys(fields) {
      var i :| 0 <= i < |rest| && rest[i].key == k;
      assert fields[i + 1].key == k;
    }
  }

  /** A field that is required or has a default puts its key in the output whenever it accepts. */
  lemma AlwaysOutput(f: Field, v: Option<Value>, o: Oracles)
    requires !f.optional || f.default.Some?
    requires ParseField(f, v, o).Success?
    ensures ParseField(f, v, o).value.Some?
  {
  }

  /** When no field can be left out, a successful parse holds exactly the declared keys. */
  lemma {:induction false} ParseKeysAll(fields: seq<Field>, input: Object, o: Oracles)
    requires forall i :: 0 <= i < |fields| ==> !fields[i].optional || fields[i].default.Some?
    requires Parse(fields, input, o).Success?
    ensures Parse(fields, input, o).value.Keys == Keys(fields)
  {
    if fields != [] {
      var rest := fields[1..];
      assert forall i :: 0 <= i < |rest| ==> rest[i] == fields[i + 1];
      ParseKeysAll(rest, input, o);
      KeysFirst(fields);
      AlwaysOutput(fields[0], Get(input, fields[0].key), o);
    }
  }

  /** A default takes effect only for a missing key: a value that is given is parsed as given. */
  lemma DefaultOnlyWhenAbsent(f: Field, v: Value, o: Oracles)
    ensures ParseField(f, Some(v), o) == ParseField(f.(default := None), Some(v), o)
  {
  }
}
