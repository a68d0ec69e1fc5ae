/**
 * JSON values as the handlers see them after `express.json()` or socket.io
 * decoding, with the JavaScript conversions the code applies to them:
 * truthiness (`!x`, `x || d`), strict equality (`===`) and template-literal
 * interpolation (`${x}`).
 */
module Json {
  import opened Wrappers
  import Text

  /**
   * A decoded JSON value. Objects and arrays are kept opaque: no handler in
   * the modelled code looks inside one.
   */
  datatype Value = Null | Bool(b: bool) | Num(r: real) | Str(s: string) | Obj | Arr

  /** A decoded JSON object; a key that is absent reads as `undefined`. */
  type Object = map<string, Value>

  /** Property access `o[k]`: `None` is `undefined`. */
  function Get(o: Object, k: string): (v: Option<Value>)
    ensures v.Some? <==> k in o
    ensures v.Some? ==> v.value == o[k]
  {
    if k in o then Some(o[k]) else None
  }

  /** JavaScript truthiness; NaN is not represented. */
  predicate Truthy(v: Option<Value>) {
    match v
    case None => false
    case Some(Null) => false
    case Some(Bool(b)) => b
    case Some(Num(r)) => r != 0.0
    case Some(Str(s)) => s != []
    case Some(Obj) => true
    case Some(Arr) => true
  }

  /** `typeof v === 'string'`. */
  predicate IsString(v: Option<Value>) {
    v.Some? && v.value.Str?
  }

  /** `a === b`; two decoded objects or arrays are never the same reference. */
  predicate StrictEquals(a: Option<Value>, b: Option<Value>) {
    match (a, b)
    case (None, None) => true
    case (Some(Null), Some(Null)) => true
    case (Some(Bool(x)), Some(Bool(y))) => x == y
    case (Some(Num(x)), Some(Num(y))) => x == y
    case (Some(Str(x)), Some(Str(y))) => x == y
    case _ => false
  }

  /** A string is strictly equal to a value exactly when that value is the same string. */
  lemma StrictEqualsString(s: string, v: Option<Value>)
    ensures StrictEquals(v, Some(Str(s))) <==> v == Some(Str(s))
  {
  }

  /** The number is an integer whose magnitude is below 10^21, so `String` prints its digits. */
  predicate PlainInteger(r: real) {
    r == r.Floor as real && -1_000_000_000_000_000_000_000.0 < r < 1_000_000_000_000_000_000_000.0
  }

  /**
   * `${v}` in a template literal. `numText` is the runtime's `Number.prototype.toString`
   * for the numbers whose text the model does not compute (fractions, exponent
   * notation); `arrText` is `Array.prototype.toString` of an array, whose elements
   * the model does not keep.
   */
  function TemplateText(v: Option<Value>, numText: real -> string, arrText: string): string {
    match v
    case None => "undefined"
    case Some(Null) => "null"
    case Some(Bool(b)) => if b then "true" else "false"
    case Some(Num(r)) => if PlainInteger(r) then Text.IntText(r.Floor) else numText(r)
    case Some(Str(s)) => s
    case Some(Obj) => "[object Object]"
    case Some(Arr) => arrText
  }

  /** Restricts `o` to `keys`: the object literal `{ k1, k2, ... }` built from destructured fields. */
  function Pick(o: Object, keys: set<string>): (p: Object)
    ensures p.Keys == o.Keys * keys
    ensures forall k :: k in p ==> p[k] == o[k]
  {
    map k | k in o && k in keys :: o[k]
  }

  /** Picking one more key that is present adds exactly that entry. */
  lemma PickPresent(o: Object, k: string, keys: set<string>)
    requires k in o
    ensures Pick(o, {k} + keys) == Pick(o, keys)[k := o[k]]
  {
  }

  /** Picking one more key that is absent changes nothing. */
  lemma PickAbsent(o: Object, k: string, keys: set<string>)
    requires k !in o
    ensures Pick(o, {k} + keys) == Pick(o, keys) - {k}
  {
  }
}
