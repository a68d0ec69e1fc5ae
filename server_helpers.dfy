/**
 * The small pure helpers of the API server: the CORS origin rule shared by the
 * HTTP and the socket server, `generateUniqueId`, the unread-count default of
 * `/notifications/count` and the validation step of `/users`.
 */
module ServerHelpers {
  import opened Wrappers
  import opened Json
  import opened Schema
  import Schemas
  import Text

  // ---------------------------------------------------------------------
  // CORS
  // ---------------------------------------------------------------------

  const DefaultFrontend := "http://localhost:5173"
  const DeployedFrontend := "https://123real-time-collaboration-workspace.launchpulse.ai"
  const LaunchpulseSuffix := ".launchpulse.ai"

  /** The allow-list: `FRONTEND_URL` (or the local default when unset or empty) and three fixed origins. */
  function AllowedOrigins(frontendUrl: Option<string>): seq<string> {
    var configured := if frontendUrl.Some? && frontendUrl.value != [] then frontendUrl.value else DefaultFrontend;
    [configured, DeployedFrontend, "http://localhost:5173", "http://localhost:3000"]
  }

  /**
   * The origin callback of both the HTTP and the socket server: a request
   * without an `Origin` header (or with an empty one) passes, as does one of the
   * listed origins or any origin ending with `.launchpulse.ai`.
   */
  predicate OriginAllowed(origin: Option<string>, frontendUrl: Option<string>) {
    origin.None? || origin.value == [] ||
    origin.value in AllowedOrigins(frontendUrl) ||
    Text.EndsWith(origin.value, LaunchpulseSuffix)
  }

  /** The rule spelled out: which origins pass, with the configured frontend in the list. */
  lemma OriginRule(origin: string, frontendUrl: Option<string>)
    ensures OriginAllowed(Some(origin), frontendUrl) <==>
      (origin == [] ||
       origin == (if frontendUrl.Some? && frontendUrl.value != [] then frontendUrl.value else DefaultFrontend) ||
       origin == "http://localhost:5173" || origin == "http://localhost:3000" ||
       (exists host :: origin == host + LaunchpulseSuffix))
  {
    Text.EndsWithIffConcat(origin, LaunchpulseSuffix);
  }

  /** The local development origin passes whatever `FRONTEND_URL` says; an unrelated origin is refused. */
  lemma OriginExamples(frontendUrl: Option<string>)
    ensures OriginAllowed(Some("http://localhost:5173"), frontendUrl)
    ensures OriginAllowed(Some("https://app.launchpulse.ai"), frontendUrl)
    ensures OriginAllowed(None, frontendUrl)
    ensures !OriginAllowed(Some("https://evil.example"), None)
  {
    assert Text.EndsWith("https://app.launchpulse.ai", LaunchpulseSuffix) by {
      Text.EndsWithIffConcat("https://app.launchpulse.ai", LaunchpulseSuffix);
      assert "https://app.launchpulse.ai" == "https://app" + LaunchpulseSuffix;
    }
    assert !Text.EndsWith("https://evil.example", LaunchpulseSuffix) by {
      var s, n := "https://evil.example", |LaunchpulseSuffix|;
      assert s[|s| - n..][n - 1] == 'e' != LaunchpulseSuffix[n - 1];
    }
  }

  // ---------------------------------------------------------------------
  // generateUniqueId
  // ---------------------------------------------------------------------

  /** The value `Math.random() * 16 | 0`, one per placeholder. */
  newtype Nibble = n: int | 0 <= n < 16

  /** The template `xxxx-xxxx-4xxx-yxxx-xxxxxx`, written group by group. */
  const IdTemplate := "xxxx" + "-" + "xxxx" + "-" + "4xxx" + "-" + "yxxx" + "-" + "xxxxxx"

  predicate IsLowerHex(c: char) {
    '0' <= c <= '9' || 'a' <= c <= 'f'
  }

  /** `v.toString(16)` of a value below 16: one lower-case hexadecimal digit. */
  function Hex(n: Nibble): (c: char)
    ensures IsLowerHex(c)
  {
    Text.DigitChar(n as nat)
  }

  /** The value substituted for a `y`: `r & 0x3 | 0x8`. */
  function YValue(r: Nibble): Nibble {
    ((((r as bv8) & 0x3) | 0x8) as int) as Nibble
  }

  predicate IsPlaceholder(c: char) {
    c == 'x' || c == 'y'
  }

  /** What the `replace` callback returns for a placeholder, given the drawn nibble; other characters stay. */
  function Subst(c: char, r: Nibble): char {
    if c == 'x' then Hex(r) else if c == 'y' then Hex(YValue(r)) else c
  }

  /** Each `x` or `y` of `t`, left to right, takes the next random nibble, starting at `next`. */
  function Fill(t: string, random: nat -> Nibble, next: nat): (r: string)
    ensures |r| == |t|
  {
    if t == [] then []
    else [Subst(t[0], random(next))] + Fill(t[1..], random, next + if IsPlaceholder(t[0]) then 1 else 0)
  }

  /** How many placeholders `t` holds: how many nibbles its filling draws. */
  function Placeholders(t: string): nat {
    if t == [] then 0 else (if IsPlaceholder(t[0]) then 1 else 0) + Placeholders(t[1..])
  }

  /** `generateUniqueId()`, where `random(i)` is the nibble drawn for the i-th placeholder. */
  function UniqueId(random: nat -> Nibble): string {
    Fill(IdTemplate, random, 0)
  }

  /** The characters a `y` can become. */
  lemma YDigits(r: Nibble)
    ensures YValue(r) as int == 8 + r as int % 4
    ensures var c := Hex(YValue(r)); c == '8' || c == '9' || c == 'a' || c == 'b'
  {
    var b := r as bv8;
    assert (b & 0x3) | 0x8 == 8 + (b % 4);
  }

  /** Filling distributes over concatenation; the second part starts after the first part's placeholders. */
  lemma {:induction false} FillConcat(a: string, b: string, random: nat -> Nibble, next: nat)
    ensures Fill(a + b, random, next) == Fill(a, random, next) + Fill(b, random, next + Placeholders(a))
  {
    if a == [] {
      assert a + b == b;
    } else {
      assert (a + b)[0] == a[0] && (a + b)[1..] == a[1..] + b;
      FillConcat(a[1..], b, random, next + if IsPlaceholder(a[0]) then 1 else 0);
    }
  }

  /** `n` hexadecimal digits drawn from `random(from)`, `random(from + 1)`, ... */
  function Group(random: nat -> Nibble, from: nat, n: nat): (g: string)
    ensures |g| == n
    ensures forall k :: 0 <= k < n ==> g[k] == Hex(random(from + k))
  {
    seq(n, k requires 0 <= k < n => Hex(random(from + k)))
  }

  /** A run of `x` placeholders takes one drawn digit each. */
  lemma {:induction false} FillXs(t: string, random: nat -> Nibble, next: nat)
    requires forall k :: 0 <= k < |t| ==> t[k] == 'x'
    ensures Fill(t, random, next) == Group(random, next, |t|)
    ensures Placeholders(t) == |t|
  {
    if t != [] {
      FillXs(t[1..], random, next + 1);
      var g, h := Group(random, next, |t|), Group(random, next + 1, |t| - 1);
      assert g == [Hex(random(next))] + h by {
        forall k | 1 <= k < |t| ensures g[k] == h[k - 1] {
        }
      }
    }
  }

  /** Text without placeholders is copied unchanged and draws nothing. */
  lemma {:induction false} FillFixed(t: string, random: nat -> Nibble, next: nat)
    requires forall k :: 0 <= k < |t| ==> !IsPlaceholder(t[k])
    ensures Fill(t, random, next) == t
    ensures Placeholders(t) == 0
  {
    if t != [] {
      FillFixed(t[1..], random, next);
      assert [t[0]] + t[1..] == t;
    }
  }

  /** The placeholders of a concatenation are those of its two parts. */
  lemma {:induction false} PlaceholdersConcat(a: string, b: string)
    ensures Placeholders(a + b) == Placeholders(a) + Placeholders(b)
  {
    if a == [] {
      assert a + b == b;
    } else {
      assert (a + b)[0] == a[0] && (a + b)[1..] == a[1..] + b;
      PlaceholdersConcat(a[1..], b);
    }
  }

  /** Appending `b` to a prefix `a` of the template: the filling of `b` starts after the prefix's nibbles. */
  lemma Extend(a: string, b: string, random: nat -> Nibble)
    ensures Fill(a + b, random, 0) == Fill(a, random, 0) + Fill(b, random, Placeholders(a))
    ensures Placeholders(a + b) == Placeholders(a) + Placeholders(b)
  {
    FillConcat(a, b, random, 0);
    PlaceholdersConcat(a, b);
  }

  /** The first two groups and their dashes. */
  lemma IdFirstHalf(random: nat -> Nibble)
    ensures Fill("xxxx" + "-" + "xxxx" + "-", random, 0) == Group(random, 0, 4) + "-" + Group(random, 4, 4) + "-"
    ensures Placeholders("xxxx" + "-" + "xxxx" + "-") == 8
  {
    assert "-"[0] == '-';
    var t, e := "xxxx", Group(random, 0, 4);
    FillXs(t, random, 0);
    FillFixed("-", random, 4);
    Extend(t, "-", random);
    t, e := t + "-", e + "-";
    assert Fill(t, random, 0) == e && Placeholders(t) == 4;
    FillXs("xxxx", random, 4);
    Extend(t, "xxxx", random);
    t, e := t + "xxxx", e + Group(random, 4, 4);
    assert Fill(t, random, 0) == e && Placeholders(t) == 8;
    FillFixed("-", random, 8);
    Extend(t, "-", random);
  }

  /** The version group and the variant group, after the first half. */
  lemma IdSecondHalf(random: nat -> Nibble)
    ensures Fill("xxxx" + "-" + "xxxx" + "-" + "4xxx" + "-" + "yxxx" + "-", random, 0) ==
      Group(random, 0, 4) + "-" + Group(random, 4, 4) + "-" + ("4" + Group(random, 8, 3)) + "-" +
      ([Hex(YValue(random(11)))] + Group(random, 12, 3)) + "-"
    ensures Placeholders("xxxx" + "-" + "xxxx" + "-" + "4xxx" + "-" + "yxxx" + "-") == 15
  {
    assert "-"[0] == '-';
    assert "4xxx"[0] == '4' && "4xxx"[1..] == "xxx";
    assert "yxxx"[0] == 'y' && "yxxx"[1..] == "xxx";
    IdFirstHalf(random);
    var t, e := "xxxx" + "-" + "xxxx" + "-", Group(random, 0, 4) + "-" + Group(random, 4, 4) + "-";
    FillXs("xxx", random, 8);
    assert Fill("4xxx", random, 8) == "4" + Group(random, 8, 3);
    assert Placeholders("4xxx") == 3;
    Extend(t, "4xxx", random);
    t, e := t + "4xxx", e + ("4" + Group(random, 8, 3));
    assert Fill(t, random, 0) == e && Placeholders(t) == 11;
    FillFixed("-", random, 11);
    Extend(t, "-", random);
    t, e := t + "-", e + "-";
    assert Fill(t, random, 0) == e && Placeholders(t) == 11;
    FillXs("xxx", random, 12);
    assert Fill("yxxx", random, 11) == [Hex(YValue(random(11)))] + Group(random, 12, 3);
    assert Placeholders("yxxx") == 4;
    Extend(t, "yxxx", random);
    t, e := t + "yxxx", e + ([Hex(YValue(random(11)))] + Group(random, 12, 3));
    assert Fill(t, random, 0) == e && Placeholders(t) == 15;
    FillFixed("-", random, 15);
    Extend(t, "-", random);
  }

  /** The id written out group by group: the template with the 21 drawn digits in place. */
  lemma UniqueIdGroups(random: nat -> Nibble)
    ensures UniqueId(random) ==
      Group(random, 0, 4) + "-" + Group(random, 4, 4) + "-" + ("4" + Group(random, 8, 3)) + "-" +
      ([Hex(YValue(random(11)))] + Group(random, 12, 3)) + "-" + Group(random, 15, 6)
  {
    IdSecondHalf(random);
    FillXs("xxxxxx", random, 15);
    Extend("xxxx" + "-" + "xxxx" + "-" + "4xxx" + "-" + "yxxx" + "-", "xxxxxx", random);
  }

  /** Where each drawn digit lands in the id. */
  lemma UniqueIdDigits(random: nat -> Nibble)
    ensures var id := UniqueId(random);
      |id| == 26 &&
      id[4] == '-' && id[9] == '-' && id[10] == '4' && id[14] == '-' && id[19] == '-' &&
      id[15] == Hex(YValue(random(11))) &&
      id[..4] == Group(random, 0, 4) && id[5..9] == Group(random, 4, 4) && id[11..14] == Group(random, 8, 3) &&
      id[16..19] == Group(random, 12, 3) && id[20..] == Group(random, 15, 6)
  {
    UniqueIdGroups(random);
    var id := UniqueId(random);
    var g0, g1, g2, g3, g4 := Group(random, 0, 4), Group(random, 4, 4), Group(random, 8, 3), Group(random, 12, 3), Group(random, 15, 6);
    var y := [Hex(YValue(random(11)))];
    var p1 := g0 + "-";
    var p2 := p1 + g1;
    var p3 := p2 + "-";
    var p4 := p3 + ("4" + g2);
    var p5 := p4 + "-";
    var p6 := p5 + (y + g3);
    var p7 := p6 + "-";
    assert id == p7 + g4;
    assert id[..20] == p7 && id[20..] == g4;
    assert p7[..19] == p6 && p6[..15] == p5 && p6[15..] == y + g3;
    assert p5[..14] == p4 && p4[..10] == p3 && p4[10..] == "4" + g2;
    assert p3[..9] == p2 && p2[..5] == p1 && p2[5..] == g1;
    assert p1[..4] == g0;
  }

  /**
   * The fixed features of every id: 26 characters, dashes at 4, 9, 14 and 19,
   * the version digit `4` at 10, one of `8 9 a b` at 15 and a lower-case
   * hexadecimal digit everywhere else.
   */
  lemma UniqueIdFormat(random: nat -> Nibble)
    ensures var id := UniqueId(random);
      |id| == 26 &&
      id[4] == '-' && id[9] == '-' && id[14] == '-' && id[19] == '-' &&
      id[10] == '4' && (id[15] == '8' || id[15] == '9' || id[15] == 'a' || id[15] == 'b') &&
      forall k :: 0 <= k < 26 && k != 4 && k != 9 && k != 10 && k != 14 && k != 15 && k != 19 ==> IsLowerHex(id[k])
  {
    UniqueIdDigits(random);
    YDigits(random(11));
    var id := UniqueId(random);
    forall k | 0 <= k < 26 && k != 4 && k != 9 && k != 10 && k != 14 && k != 15 && k != 19
      ensures IsLowerHex(id[k])
    {
      if k < 4 {
        assert id[k] == id[..4][k];
      } else if k < 9 {
        assert id[k] == id[5..9][k - 5];
      } else if k < 14 {
        assert id[k] == id[11..14][k - 11];
      } else if k < 19 {
        assert id[k] == id[16..19][k - 16];
      } else {
        assert id[k] == id[20..][k - 20];
      }
    }
  }

  lemma HexInjective(a: Nibble, b: Nibble)
    ensures Hex(a) == Hex(b) <==> a == b
  {
  }

  /** Equal groups come from equal draws, and conversely. */
  lemma GroupInjective(f: nat -> Nibble, g: nat -> Nibble, from: nat, n: nat)
    ensures Group(f, from, n) == Group(g, from, n) <==> forall i :: from <= i < from + n ==> f(i) == g(i)
  {
    if Group(f, from, n) == Group(g, from, n) {
      forall i | from <= i < from + n ensures f(i) == g(i) {
        assert Group(f, from, n)[i - from] == Group(g, from, n)[i - from];
        HexInjective(f(i), g(i));
      }
    }
    if forall i :: from <= i < from + n ==> f(i) == g(i) {
      assert forall k :: 0 <= k < n ==> Group(f, from, n)[k] == Group(g, from, n)[k];
    }
  }

  /** Agreement on the draws an id keeps: every `x` nibble, and the low two bits of the `y` nibble. */
  predicate SameKeptDraws(f: nat -> Nibble, g: nat -> Nibble) {
    (forall i :: 0 <= i < 21 && i != 11 ==> f(i) == g(i)) && f(11) as int % 4 == g(11) as int % 4
  }

  lemma SameIdSameDraws(f: nat -> Nibble, g: nat -> Nibble)
    requires UniqueId(f) == UniqueId(g)
    ensures SameKeptDraws(f, g)
  {
    UniqueIdDigits(f);
    UniqueIdDigits(g);
    YDigits(f(11));
    YDigits(g(11));
    HexInjective(YValue(f(11)), YValue(g(11)));
    GroupInjective(f, g, 0, 4);
    GroupInjective(f, g, 4, 4);
    GroupInjective(f, g, 8, 3);
    GroupInjective(f, g, 12, 3);
    GroupInjective(f, g, 15, 6);
  }

  lemma SameDrawsSameId(f: nat -> Nibble, g: nat -> Nibble)
    requires SameKeptDraws(f, g)
    ensures UniqueId(f) == UniqueId(g)
  {
    YDigits(f(11));
    YDigits(g(11));
    assert YValue(f(11)) == YValue(g(11));
    GroupInjective(f, g, 0, 4);
    GroupInjective(f, g, 4, 4);
    GroupInjective(f, g, 8, 3);
    GroupInjective(f, g, 12, 3);
    GroupInjective(f, g, 15, 6);
    UniqueIdGroups(f);
    UniqueIdGroups(g);
  }

  /**
   * Two draws give the same id exactly when they agree on every `x`
   * placeholder and on the low two bits of the `y` placeholder: the id keeps
   * 82 of the 84 random bits.
   */
  lemma UniqueIdInjective(f: nat -> Nibble, g: nat -> Nibble)
    ensures UniqueId(f) == UniqueId(g) <==> SameKeptDraws(f, g)
  {
    if UniqueId(f) == UniqueId(g) {
      SameIdSameDraws(f, g);
    }
    if SameKeptDraws(f, g) {
      SameDrawsSameId(f, g);
    }
  }

  // ---------------------------------------------------------------------
  // /notifications/count
  // ---------------------------------------------------------------------

  /** `parseInt(unread_count) || 1`: NaN and 0 both become 1. */
  function UnreadCount(countText: string): (n: int)
    ensures n != 0
    ensures Text.ParseInt(countText).Some? && Text.ParseInt(countText).value != 0 ==> n == Text.ParseInt(countText).value
    ensures Text.ParseInt(countText).None? || Text.ParseInt(countText) == Some(0) ==> n == 1
  {
    match Text.ParseInt(countText)
    case None => 1
    case Some(k) => if k == 0 then 1 else k
  }

  /** On the decimal text of a `COUNT(*)`, the reported count is the count itself, except that 0 is reported as 1. */
  lemma UnreadCountOfCount(count: nat)
    ensures UnreadCount(Text.NatText(count)) == if count == 0 then 1 else count
  {
    Text.ParseIntNatText(count);
  }

  // ---------------------------------------------------------------------
  // /users search validation
  // ---------------------------------------------------------------------

  /**
   * The object `/users` validates: the query-string values with the handler's
   * own destructuring defaults (`limit = 10`, `offset = 0`, `sort_by =
   * 'created_at'`, `sort_order = 'desc'`) filled in for the absent ones.
   */
  function UsersSearchInput(query: Object): (input: Object)
    ensures input.Keys == (query.Keys * {"query"}) + {"limit", "offset", "sort_by", "sort_order"}
  {
    var base := map["limit" := Get(query, "limit").GetOr(Num(10.0)),
                    "offset" := Get(query, "offset").GetOr(Num(0.0)),
                    "sort_by" := Get(query, "sort_by").GetOr(Str("created_at")),
                    "sort_order" := Get(query, "sort_order").GetOr(Str("desc"))];
    if "query" in query then base["query" := query["query"]] else base
  }

  /**
   * `/users`: the validated search parameters, or the 500 the handler answers
   * with when `searchUserInputSchema.parse` throws.
   */
  function UsersSearch(query: Object, o: Oracles): (r: Result<Object, int>)
    ensures r.Failure? ==> r.error == 500
  {
    match Parse(Schemas.SearchUser, UsersSearchInput(query), o)
    case Success(out) => Success(out)
    case Failure(_) => Failure(500)
  }

  /** A query-string value: a string, or an array or object for repeated or bracketed keys. */
  predicate QueryStringValue(v: Value) {
    v.Str? || v.Arr? || v.Obj?
  }

  /**
   * Query-string values are never numbers, so `/users` is answered only when
   * neither `limit` nor `offset` is given; a given `sort_by` or `sort_order`
   * must be one of its options and a given `query` a string.
   */
  lemma UsersSearchRule(query: Object, o: Oracles)
    requires forall k :: k in query ==> QueryStringValue(query[k])
    ensures UsersSearch(query, o).Success? <==>
      ("limit" !in query && "offset" !in query &&
       ("query" in query ==> query["query"].Str?) &&
       ("sort_by" in query ==> Schemas.OneOf(Get(query, "sort_by"), ["name", "created_at"])) &&
       ("sort_order" in query ==> Schemas.OneOf(Get(query, "sort_order"), ["asc", "desc"])))
  {
    var input := UsersSearchInput(query);
    UsersSearchInputValues(query);
    Schemas.SearchUserRules(input, o);
  }

  /** What each key of the validated object holds: the given value, or the destructuring default. */
  lemma UsersSearchInputValues(query: Object)
    ensures var input := UsersSearchInput(query);
      Get(input, "limit") == Some(Get(query, "limit").GetOr(Num(10.0))) &&
      Get(input, "offset") == Some(Get(query, "offset").GetOr(Num(0.0))) &&
      Get(input, "sort_by") == Some(Get(query, "sort_by").GetOr(Str("created_at"))) &&
      Get(input, "sort_order") == Some(Get(query, "sort_order").GetOr(Str("desc"))) &&
      ("query" in input <==> "query" in query) &&
      ("query" in query ==> Get(input, "query") == Get(query, "query"))
  {
  }

  /** Without parameters the search runs with limit 10, offset 0, newest first. */
  lemma UsersSearchDefaults(o: Oracles)
    ensures UsersSearch(map[], o).Success?
    ensures var out := UsersSearch(map[], o).value;
      Get(out, "limit") == Some(Num(10.0)) && Get(out, "offset") == Some(Num(0.0)) &&
      Get(out, "sort_by") == Some(Str("created_at")) && Get(out, "sort_order") == Some(Str("desc")) &&
      "query" !in out
  {
    var input := UsersSearchInput(map[]);
    Schemas.SearchUserRules(input, o);
    Schemas.SearchOutput(["name", "created_at"], "created_at", "desc", input, o);
  }
}
