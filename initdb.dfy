/**
 * The database initialisation script: the SQL file is cut before every
 * `CREATE TABLE ` and `INSERT INTO`, and the non-blank pieces run in order
 * inside one transaction on a pooled client, which is released whatever
 * happens. Reading the file and the outcome of each query are inputs.
 */
module InitDb {
  import opened Wrappers
  import Text

  const CreateTable := "CREATE TABLE "
  const InsertInto := "INSERT INTO"

  /** One of the two keywords of the split pattern starts at `k`. */
  predicate KeywordAt(s: string, k: int) {
    Text.OccursAt(s, CreateTable, k) || Text.OccursAt(s, InsertInto, k)
  }

  /** The length of the keyword that starts at `k`. */
  function KeywordLength(s: string, k: int): nat {
    if Text.OccursAt(s, CreateTable, k) then |CreateTable| else |InsertInto|
  }

  // ---------------------------------------------------------------------
  // split(/(?=CREATE TABLE |INSERT INTO)/)
  // ---------------------------------------------------------------------

  /**
   * The pieces of `s` from `p` on, scanning for a match at `q`: the
   * lookahead matches without consuming, so the string is cut at every
   * position after the last cut where a keyword starts.
   */
  function Pieces(s: string, p: nat, q: nat): (r: seq<string>)
    requires p < q <= |s|
    ensures |r| >= 1
    decreases |s| - q
  {
    if q == |s| then [s[p..]]
    else if KeywordAt(s, q) then [s[p..q]] + Pieces(s, q, q + 1)
    else Pieces(s, p, q + 1)
  }

  /**
   * `String.prototype.split` with the lookahead pattern. A match at the
   * position of the last cut is skipped, so there is no empty first piece;
   * the empty text yields one empty piece.
   */
  function SplitCommands(s: string): (pieces: seq<string>)
    ensures |pieces| >= 1
  {
    if s == [] then [s] else Pieces(s, 0, 1)
  }

  function Concat(pieces: seq<string>): string {
    if pieces == [] then [] else pieces[0] + Concat(pieces[1..])
  }

  lemma {:induction false} PiecesConcat(s: string, p: nat, q: nat)
    requires p < q <= |s|
    ensures Concat(Pieces(s, p, q)) == s[p..]
    decreases |s| - q
  {
    if q == |s| {
      assert Concat([s[p..]]) == s[p..] + Concat([]);
    } else if KeywordAt(s, q) {
      PiecesConcat(s, q, q + 1);
      assert s[p..] == s[p..q] + s[q..];
    } else {
      PiecesConcat(s, p, q + 1);
    }
  }

  /** The split drops nothing: joining the pieces gives back the file text. */
  lemma SplitConcat(s: string)
    ensures Concat(SplitCommands(s)) == s
  {
    if s == [] {
      assert Concat([s]) == s + Concat([]);
    } else {
      PiecesConcat(s, 0, 1);
    }
  }

  /** What a keyword at `b` says about the characters at `b` and `b + 2`. */
  lemma KeywordChars(s: string, b: int)
    ensures Text.OccursAt(s, CreateTable, b) ==> s[b] == 'C'
    ensures Text.OccursAt(s, InsertInto, b) ==> s[b] == 'I' && s[b + 2] == 'S'
  {
    if Text.OccursAt(s, CreateTable, b) {
      assert s[b] == s[b..b + |CreateTable|][0];
    }
    if Text.OccursAt(s, InsertInto, b) {
      assert s[b] == s[b..b + |InsertInto|][0];
      assert s[b + 2] == s[b..b + |InsertInto|][2];
    }
  }

  /** No keyword starts strictly inside another. */
  lemma NotInsideKeyword(s: string, a: int, b: int)
    requires KeywordAt(s, a) && a < b < a + KeywordLength(s, a)
    ensures !KeywordAt(s, b)
  {
    var d := b - a;
    KeywordChars(s, b);
    if Text.OccursAt(s, CreateTable, a) {
      assert s[b] == s[a..a + |CreateTable|][d] == CreateTable[d];
      assert s[b] != 'C' && s[b] != 'I';
    } else {
      assert s[b] == s[a..a + |InsertInto|][d] == InsertInto[d];
      if d == 7 {
        assert s[b + 2] == s[a..a + |InsertInto|][9] == 'T';
      } else {
        assert s[b] != 'C' && s[b] != 'I';
      }
    }
  }

  /** Two keyword occurrences never overlap. */
  lemma NoOverlap(s: string, a: int, b: int)
    requires KeywordAt(s, a) && KeywordAt(s, b) && a < b
    ensures a + KeywordLength(s, a) <= b
  {
    if b < a + KeywordLength(s, a) {
      NotInsideKeyword(s, a, b);
    }
  }

  lemma SliceOfSlice(s: string, p: nat, e: nat, k: nat, n: nat)
    requires p <= e <= |s| && k + n <= e - p
    ensures s[p..e][k..k + n] == s[p + k..p + k + n]
  {
    var a, b := s[p..e][k..k + n], s[p + k..p + k + n];
    forall i | 0 <= i < n ensures a[i] == b[i] {
      assert a[i] == s[p..e][k + i] == s[p + k + i];
    }
  }

  /** A keyword wholly inside a slice is a keyword of the whole string. */
  lemma KeywordInSlice(s: string, p: nat, e: nat, k: int)
    requires p <= e <= |s|
    requires KeywordAt(s[p..e], k)
    ensures KeywordAt(s, p + k)
  {
    if Text.OccursAt(s[p..e], CreateTable, k) {
      SliceOfSlice(s, p, e, k, |CreateTable|);
    } else {
      SliceOfSlice(s, p, e, k, |InsertInto|);
    }
  }

  /** A keyword that ends before the slice does starts the slice. */
  lemma KeywordStartsSlice(s: string, p: nat, e: nat)
    requires p <= e <= |s| && KeywordAt(s, p) && p + KeywordLength(s, p) <= e
    ensures KeywordAt(s[p..e], 0)
  {
    if Text.OccursAt(s, CreateTable, p) {
      SliceOfSlice(s, p, e, 0, |CreateTable|);
    } else {
      SliceOfSlice(s, p, e, 0, |InsertInto|);
    }
  }

  /** No keyword inside `s[p..e]` past its start when none starts in `(p, e)` of `s`. */
  lemma NoKeywordInside(s: string, p: nat, e: nat)
    requires p <= e <= |s|
    requires forall k :: p < k < e ==> !KeywordAt(s, k)
    ensures forall k :: 0 < k ==> !KeywordAt(s[p..e], k)
  {
    forall k | 0 < k ensures !KeywordAt(s[p..e], k) {
      if KeywordAt(s[p..e], k) {
        KeywordInSlice(s, p, e, k);
      }
    }
  }

  /**
   * Every piece after the first begins with `CREATE TABLE ` or `INSERT INTO`,
   * and no piece holds either keyword anywhere but at its start.
   */
  ghost predicate CutAtKeywords(r: seq<string>) {
    (forall i :: 0 < i < |r| ==> KeywordAt(r[i], 0)) &&
    (forall i, k :: 0 <= i < |r| && 0 < k ==> !KeywordAt(r[i], k))
  }

  lemma {:induction false} PiecesShape(s: string, p: nat, q: nat)
    requires p < q <= |s|
    requires forall k :: p < k < q ==> !KeywordAt(s, k)
    ensures CutAtKeywords(Pieces(s, p, q))
    ensures KeywordAt(s, p) ==> KeywordAt(Pieces(s, p, q)[0], 0)
    decreases |s| - q
  {
    if q == |s| {
      NoKeywordInside(s, p, q);
      assert s[p..] == s[p..q];
      if KeywordAt(s, p) {
        assert p + KeywordLength(s, p) <= |s|;
        KeywordStartsSlice(s, p, q);
      }
    } else if KeywordAt(s, q) {
      NoKeywordInside(s, p, q);
      PiecesShape(s, q, q + 1);
      if KeywordAt(s, p) {
        NoOverlap(s, p, q);
        KeywordStartsSlice(s, p, q);
      }
      var r, rest := Pieces(s, p, q), Pieces(s, q, q + 1);
      assert r == [s[p..q]] + rest;
      forall i | 0 < i < |r| ensures KeywordAt(r[i], 0) {
        assert r[i] == rest[i - 1];
      }
      forall i, k | 0 <= i < |r| && 0 < k ensures !KeywordAt(r[i], k) {
        if i > 0 { assert r[i] == rest[i - 1]; }
      }
    } else {
      PiecesShape(s, p, q + 1);
    }
  }

  /** Every piece from a cut holds at least the character at the cut. */
  lemma {:induction false} PiecesNonEmpty(s: string, p: nat, q: nat)
    requires p < q <= |s|
    ensures forall i :: 0 <= i < |Pieces(s, p, q)| ==> Pieces(s, p, q)[i] != []
    decreases |s| - q
  {
    if q < |s| {
      if KeywordAt(s, q) {
        PiecesNonEmpty(s, q, q + 1);
      } else {
        PiecesNonEmpty(s, p, q + 1);
      }
    }
  }

  /**
   * The split cuts the file exactly before each keyword, and only the empty
   * text has an empty piece: the zero-width match at the start is skipped.
   */
  lemma SplitShape(s: string)
    ensures CutAtKeywords(SplitCommands(s))
    ensures s != [] ==> forall i :: 0 <= i < |SplitCommands(s)| ==> SplitCommands(s)[i] != []
  {
    if s != [] {
      PiecesShape(s, 0, 1);
      PiecesNonEmpty(s, 0, 1);
    } else {
      assert forall k :: !KeywordAt(s, k);
    }
  }

  // ---------------------------------------------------------------------
  // the pieces that run
  // ---------------------------------------------------------------------

  /**
   * The test `if (cmd.trim())`: a piece runs unless it is all white space,
   * checked one character at a time.
   */
  predicate Runs(cmd: string) {
    cmd != [] && (!Text.IsJsSpace(cmd[0]) || Runs(cmd[1..]))
  }

  /** `Runs` is the truthiness of the trimmed piece. */
  lemma {:induction false} RunsIffTrimmed(cmd: string)
    ensures Runs(cmd) <==> Text.Trim(cmd) != []
  {
    Text.TrimEmptyIffBlank(cmd);
    if cmd != [] {
      RunsIffTrimmed(cmd[1..]);
      Text.TrimEmptyIffBlank(cmd[1..]);
      assert Text.Blank(cmd) <==> Text.IsJsSpace(cmd[0]) && Text.Blank(cmd[1..]) by {
        if Text.IsJsSpace(cmd[0]) && Text.Blank(cmd[1..]) {
          forall k | 0 <= k < |cmd| ensures Text.IsJsSpace(cmd[k]) {
            if k > 0 { assert cmd[k] == cmd[1..][k - 1]; }
          }
        }
      }
    }
  }

  /** The pieces that run, in their order. */
  function NonBlank(pieces: seq<string>): (cmds: seq<string>)
    ensures |cmds| <= |pieces|
  {
    if pieces == [] then []
    else if Runs(pieces[0]) then [pieces[0]] + NonBlank(pieces[1..])
    else NonBlank(pieces[1..])
  }

  /** Filtering distributes over concatenation, so the kept pieces keep their order. */
  lemma {:induction false} NonBlankAppend(a: seq<string>, b: seq<string>)
    ensures NonBlank(a + b) == NonBlank(a) + NonBlank(b)
  {
    if a != [] {
      assert (a + b)[0] == a[0] && (a + b)[1..] == a[1..] + b;
      NonBlankAppend(a[1..], b);
      if Runs(a[0]) {
        assert NonBlank(a + b) == [a[0]] + NonBlank(a[1..] + b);
        assert [a[0]] + (NonBlank(a[1..]) + NonBlank(b)) == ([a[0]] + NonBlank(a[1..])) + NonBlank(b);
      }
    } else {
      assert a + b == b;
    }
  }

  /** A blank piece is skipped and a piece with text kept, wherever it stands. */
  lemma NonBlankSnoc(a: seq<string>, x: string)
    ensures NonBlank(a + [x]) == NonBlank(a) + (if Text.Trim(x) != [] then [x] else [])
  {
    NonBlankAppend(a, [x]);
    assert NonBlank([x]) == (if Runs(x) then [x] else []) by {
      assert [x][1..] == [];
    }
    RunsIffTrimmed(x);
  }

  // ---------------------------------------------------------------------
  // the transaction
  // ---------------------------------------------------------------------

  /** Why initialisation failed: the file could not be read, or the query sent `index`-th threw. */
  datatype InitError = ReadFailed | QueryFailed(index: nat)

  /**
   * The `for` loop: each piece with text is sent as query number `n`,
   * `n + 1`, and so on, until one throws; its index is returned.
   */
  function RunPieces(pieces: seq<string>, fails: nat -> bool, n: nat): (r: (seq<string>, Option<nat>))
  {
    if pieces == [] then ([], None)
    else if !Runs(pieces[0]) then RunPieces(pieces[1..], fails, n)
    else if fails(n) then ([pieces[0]], Some(n))
    else
      var rest := RunPieces(pieces[1..], fails, n + 1);
      ([pieces[0]] + rest.0, rest.1)
  }

  /**
   * The loop sends the pieces with text in order and stops at the first
   * query that throws: what it sent is a prefix of them, every query before
   * the failing one succeeded, and with no failure it sent them all.
   */
  lemma {:induction false} RunPiecesSpec(pieces: seq<string>, fails: nat -> bool, n: nat)
    ensures var r := RunPieces(pieces, fails, n); var cmds := NonBlank(pieces);
      |r.0| <= |cmds| && r.0 == cmds[..|r.0|] &&
      (r.1.None? ==> r.0 == cmds && forall j :: n <= j < n + |cmds| ==> !fails(j)) &&
      (r.1.Some? ==> |r.0| >= 1 && r.1.value == n + |r.0| - 1 && fails(r.1.value) &&
                     forall j :: n <= j < r.1.value ==> !fails(j))
  {
    if pieces != [] {
      if !Runs(pieces[0]) {
        RunPiecesSpec(pieces[1..], fails, n);
      } else if !fails(n) {
        RunPiecesSpec(pieces[1..], fails, n + 1);
      }
    }
  }

  /** The `catch` block: `ROLLBACK` is sent; if it throws too, its error is the one that propagates. */
  function RolledBack(sent: seq<string>, e: InitError, fails: nat -> bool): (r: (seq<string>, Option<InitError>))
  {
    (sent + ["ROLLBACK"], Some(if fails(|sent|) then QueryFailed(|sent|) else e))
  }

  /**
   * Everything `initDb` sends on its client, and the error it rethrows, if
   * any. `fails(k)` says whether the `k`-th query sent throws.
   */
  function Transcript(file: Option<string>, fails: nat -> bool): (r: (seq<string>, Option<InitError>))
  {
    if fails(0) then RolledBack(["BEGIN"], QueryFailed(0), fails)
    else if file.None? then RolledBack(["BEGIN"], ReadFailed, fails)
    else
      var run := RunPieces(SplitCommands(file.value), fails, 1);
      if run.1.Some? then RolledBack(["BEGIN"] + run.0, QueryFailed(run.1.value), fails)
      else if fails(1 + |run.0|) then RolledBack(["BEGIN"] + run.0 + ["COMMIT"], QueryFailed(1 + |run.0|), fails)
      else (["BEGIN"] + run.0 + ["COMMIT"], None)
  }

  /**
   * `COMMIT` is sent and initialisation succeeds exactly when `BEGIN`, the
   * file read and every command succeed (and then the commit too); otherwise
   * the transcript ends with `ROLLBACK`. It always starts with `BEGIN`.
   */
  lemma CommitOnlyIfAllSucceed(file: Option<string>, fails: nat -> bool)
    ensures var t := Transcript(file, fails);
      |t.0| >= 2 && t.0[0] == "BEGIN" &&
      (t.1.None? <==> t.0[|t.0| - 1] == "COMMIT") &&
      (t.1.Some? <==> t.0[|t.0| - 1] == "ROLLBACK")
    ensures Transcript(file, fails).1.None? <==>
      (!fails(0) && file.Some? &&
       (forall j :: 1 <= j <= |NonBlank(SplitCommands(file.value))| ==> !fails(j)) &&
       !fails(1 + |NonBlank(SplitCommands(file.value))|))
  {
    if file.Some? {
      var cmds := NonBlank(SplitCommands(file.value));
      RunPiecesSpec(SplitCommands(file.value), fails, 1);
      var run := RunPieces(SplitCommands(file.value), fails, 1);
      if run.1.Some? {
        assert fails(run.1.value) && 1 <= run.1.value <= |cmds|;
      }
    }
  }

  /** On success exactly the pieces with text ran, in the file's order, between `BEGIN` and `COMMIT`. */
  lemma SuccessRunsAll(file: Option<string>, fails: nat -> bool)
    requires Transcript(file, fails).1.None?
    ensures file.Some?
    ensures Transcript(file, fails).0 == ["BEGIN"] + NonBlank(SplitCommands(file.value)) + ["COMMIT"]
  {
    RunPiecesSpec(SplitCommands(file.value), fails, 1);
  }

  /**
   * When a command throws, the ones before it ran, nothing after it runs,
   * and `ROLLBACK` follows it at once.
   */
  lemma FailureStopsAtCommand(file: string, fails: nat -> bool)
    requires !fails(0)
    requires RunPieces(SplitCommands(file), fails, 1).1.Some?
    ensures var cmds := NonBlank(SplitCommands(file)); var t := Transcript(Some(file), fails).0;
      var m := RunPieces(SplitCommands(file), fails, 1).1.value;
      1 <= m <= |cmds| && fails(m) && t == ["BEGIN"] + cmds[..m] + ["ROLLBACK"]
  {
    RunPiecesSpec(SplitCommands(file), fails, 1);
  }

  /** A pooled connection: the queries sent on it and whether it was handed back. */
  class Client {
    var sent: seq<string>
    var released: bool

    /** `pool.connect()`. */
    constructor ()
      ensures sent == [] && !released
    {
      sent := [];
      released := false;
    }

    /** `client.query(text)`: the query is sent; the outcome of the `k`-th is `fails(k)`. */
    method Query(text: string, fails: nat -> bool) returns (ok: bool)
      requires !released
      modifies this
      ensures sent == old(sent) + [text] && !released
      ensures ok == !fails(|old(sent)|)
    {
      sent := sent + [text];
      ok := !fails(|sent| - 1);
    }

    /** `client.release()`. */
    method Release()
      modifies this
      ensures released && sent == old(sent)
    {
      released := true;
    }
  }

  /**
   * The `for` loop on an open client: the pieces with text are sent in
   * order, numbered from the queries already sent, until one throws.
   */
  method SendPieces(client: Client, pieces: seq<string>, fails: nat -> bool) returns (failed: Option<nat>)
    requires !client.released
    modifies client
    ensures !client.released
    ensures var run := RunPieces(pieces, fails, |old(client.sent)|);
      client.sent == old(client.sent) + run.0 && failed == run.1
  {
    ghost var start := client.sent;
    ghost var n := |start|;
    ghost var done: seq<string> := [];
    var i := 0;
    failed := None;
    assert pieces[0..] == pieces && start + [] == start;
    assert done + RunPieces(pieces, fails, n).0 == RunPieces(pieces, fails, n).0;
    while i < |pieces| && failed.None?
      invariant 0 <= i <= |pieces|
      invariant client.sent == start + done && !client.released
      invariant failed.None? ==>
        var rest := RunPieces(pieces[i..], fails, n + |done|);
        RunPieces(pieces, fails, n) == (done + rest.0, rest.1)
      invariant failed.Some? ==> RunPieces(pieces, fails, n) == (done, failed)
      decreases |pieces| - i
    {
      assert pieces[i..][0] == pieces[i] && pieces[i..][1..] == pieces[i + 1..];
      if Runs(pieces[i]) {
        var ok := client.Query(pieces[i], fails);
        ghost var rest := RunPieces(pieces[i + 1..], fails, n + |done| + 1);
        assert done + ([pieces[i]] + rest.0) == (done + [pieces[i]]) + rest.0;
        assert start + done + [pieces[i]] == start + (done + [pieces[i]]);
        done := done + [pieces[i]];
        if !ok {
          failed := Some(|client.sent| - 1);
        }
      }
      i := i + 1;
    }
    if failed.None? {
      assert pieces[i..] == [] && done + [] == done;
    }
  }

  /**
   * `initDb`: BEGIN, the pieces with text in order, then COMMIT, or ROLLBACK
   * at the first failure; the client is released on every path.
   */
  method Init(file: Option<string>, fails: nat -> bool) returns (client: Client, err: Option<InitError>)
    ensures fresh(client)
    ensures (client.sent, err) == Transcript(file, fails)
    ensures client.released
  {
    client := new Client();
    var ok := client.Query("BEGIN", fails);
    assert client.sent == ["BEGIN"];
    err := None;
    if !ok {
      err := Some(QueryFailed(0));
    } else if file.None? {
      err := Some(ReadFailed);
    } else {
      var failed := SendPieces(client, SplitCommands(file.value), fails);
      if failed.Some? {
        err := Some(QueryFailed(failed.value));
      } else {
        ok := client.Query("COMMIT", fails);
        if !ok {
          err := Some(QueryFailed(|client.sent| - 1));
        }
      }
    }
    if err.Some? {
      var n := |client.sent|;
      ok := client.Query("ROLLBACK", fails);
      if !ok {
        err := Some(QueryFailed(n));
      }
    }
    client.Release();
  }
}
