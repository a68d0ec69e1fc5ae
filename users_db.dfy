/**
 * The `users` table as the auth handlers use it: rows looked up by their
 * `email` column or their `user_id` column, and inserted with a unique
 * constraint on both. A connection that fails is an input of each query.
 */
module UsersDb {
  import opened Wrappers

  /** One row; `None` is SQL `NULL`. */
  datatype UserRow = UserRow(
    userId: string,
    email: string,
    passwordHash: Option<string>,
    name: string,
    role: Option<string>,
    createdAt: string)

  /** The errors a query can raise, by their `code`: `23505`, `ECONNREFUSED`, any other. */
  datatype DbError = UniqueViolation | ConnectionRefused | OtherDbError

  /** The `code` property of a raised error. */
  function Code(e: DbError): string {
    match e
    case UniqueViolation => "23505"
    case ConnectionRefused => "ECONNREFUSED"
    case OtherDbError => ""
  }

  /** Whether some row holds the user id. */
  predicate HasUserId(rows: map<string, UserRow>, id: string) {
    exists e :: e in rows && rows[e].userId == id
  }

  /** Rows are filed under their own email and no two share a user id. */
  predicate WellFormed(rows: map<string, UserRow>) {
    (forall e :: e in rows ==> rows[e].email == e) &&
    (forall e1, e2 :: e1 in rows && e2 in rows && rows[e1].userId == rows[e2].userId ==> e1 == e2)
  }

  class UsersTable {
    /** The rows, keyed by their `email` column. */
    var rows: map<string, UserRow>

    predicate Valid()
      reads this
    {
      WellFormed(rows)
    }

    constructor ()
      ensures Valid() && rows == map[]
    {
      rows := map[];
    }

    /** `SELECT ... FROM users WHERE email = $1`: the row filed under the email, if any. */
    method SelectByEmail(email: string, fault: Option<DbError>) returns (r: Result<Option<UserRow>, DbError>)
      requires Valid()
      ensures fault.Some? ==> r == Failure(fault.value)
      ensures fault.None? ==> r.Success? && (r.value.Some? <==> email in rows)
      ensures fault.None? && email in rows ==> r.value.value == rows[email] && r.value.value.email == email
    {
      if fault.Some? {
        return Failure(fault.value);
      }
      if email in rows {
        return Success(Some(rows[email]));
      }
      return Success(None);
    }

    /** `SELECT ... FROM users WHERE user_id = $1`: the one row with that user id, if any. */
    method SelectByUserId(id: string, fault: Option<DbError>) returns (r: Result<Option<UserRow>, DbError>)
      requires Valid()
      ensures fault.Some? ==> r == Failure(fault.value)
      ensures fault.None? ==> r.Success? && (r.value.Some? <==> HasUserId(rows, id))
      ensures fault.None? && r.value.Some? ==> r.value.value in rows.Values && r.value.value.userId == id
    {
      if fault.Some? {
        return Failure(fault.value);
      }
      var unseen := rows.Keys;
      while unseen != {}
        invariant unseen <= rows.Keys
        invariant forall e :: e in rows && e !in unseen ==> rows[e].userId != id
        decreases |unseen|
      {
        var e :| e in unseen;
        if rows[e].userId == id {
          return Success(Some(rows[e]));
        }
        unseen := unseen - {e};
      }
      return Success(None);
    }

    /**
     * `INSERT INTO users ... RETURNING ...`: the row is added unless the
     * connection fails or its email or user id is already taken, in which case
     * nothing changes.
     */
    method Insert(row: UserRow, fault: Option<DbError>) returns (r: Result<UserRow, DbError>)
      requires Valid()
      modifies this
      ensures Valid()
      ensures (r, rows) == Inserted(old(rows), row, fault)
    {
      if fault.Some? {
        return Failure(fault.value);
      }
      var taken := SelectByUserId(row.userId, None);
      if row.email in rows || taken.value.Some? {
        return Failure(UniqueViolation);
      }
      rows := rows[row.email := row];
      InsertedWellFormed(old(rows), row, fault);
      return Success(row);
    }
  }

  /**
   * `INSERT INTO users ... RETURNING ...` on `rows`: the row is added unless the
   * connection fails or its email or user id is already taken, in which case
   * nothing changes.
   */
  function Inserted(rows: map<string, UserRow>, row: UserRow, fault: Option<DbError>): (r: (Result<UserRow, DbError>, map<string, UserRow>))
    ensures fault.Some? ==> r == (Failure(fault.value), rows)
    ensures fault.None? ==> (r.0.Failure? <==> row.email in rows || HasUserId(rows, row.userId))
    ensures fault.None? && r.0.Failure? ==> r.0.error == UniqueViolation
    ensures r.0.Failure? ==> r.1 == rows
    ensures r.0.Success? ==> r.0.value == row && r.1 == rows[row.email := row]
  {
    if fault.Some? then (Failure(fault.value), rows)
    else if row.email in rows || HasUserId(rows, row.userId) then (Failure(UniqueViolation), rows)
    else (Success(row), rows[row.email := row])
  }

  /** Inserting keeps the table well formed: emails and user ids stay unique. */
  lemma InsertedWellFormed(rows: map<string, UserRow>, row: UserRow, fault: Option<DbError>)
    requires WellFormed(rows)
    ensures WellFormed(Inserted(rows, row, fault).1)
  {
  }

  /** An insert never alters or drops an existing row. */
  lemma InsertedKeepsRows(rows: map<string, UserRow>, row: UserRow, fault: Option<DbError>)
    ensures forall e :: e in rows ==> e in Inserted(rows, row, fault).1 && Inserted(rows, row, fault).1[e] == rows[e]
  {
  }
}
