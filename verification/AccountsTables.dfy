/** Rows, keys and constraints of the five account tables
    (backend/scripts/migrate_accounts_to_postgres.py:37-58). */
module AccountsTables {
  import opened Text

  datatype TableName = Accounts | ApiKeys | LoginTokens | SessionOwners | UsageCounters

  /** The order in which tables are merged: accounts before anything that refers to them. */
  const TABLES: seq<TableName> := [Accounts, ApiKeys, LoginTokens, SessionOwners, UsageCounters]

  /** One database row. A column the row's table does not have is empty; `rest`
      stands for the columns the merge only copies. */
  datatype Row = Row(id: string, email: string, hash: string, sessionId: string,
                     accountId: string, counter: string, period: string, rest: string)

  /** The tables that exist, with their rows. */
  type Db = map<TableName, seq<Row>>

  function PrimaryKey(t: TableName, r: Row): seq<string> {
    match t
    case SessionOwners => [r.sessionId]
    case UsageCounters => [r.accountId, r.counter, r.period]
    case _ => [r.id]
  }

  predicate HasUnique(t: TableName) { t.Accounts? || t.ApiKeys? || t.LoginTokens? }

  /** The column the database itself keeps unique. */
  function RawUnique(t: TableName, r: Row): string {
    if t.Accounts? then r.email else r.hash
  }

  /** The value the merge compares: emails are normalised first. */
  function UniqueKey(t: TableName, r: Row): string {
    if t.Accounts? then Norm(r.email) else r.hash
  }

  function RowsOf(db: Db, t: TableName): seq<Row> { if t in db then db[t] else [] }

  function Ids(rows: seq<Row>): set<string> { set r | r in rows :: r.id }

  function PrimaryKeys(t: TableName, rows: seq<Row>): set<seq<string>> {
    set r | r in rows :: PrimaryKey(t, r)
  }

  function UniqueKeys(t: TableName, rows: seq<Row>): set<string> {
    set r | r in rows :: UniqueKey(t, r)
  }

  /** Normalised email -> account id; on a duplicate the last row wins, as in a
      Python dict comprehension. */
  function Owners(rows: seq<Row>): map<string, string> {
    if rows == [] then map[]
    else Owners(rows[..|rows| - 1])[Norm(rows[|rows| - 1].email) := rows[|rows| - 1].id]
  }

  lemma KeysConcat(t: TableName, a: seq<Row>, b: seq<Row>)
    ensures PrimaryKeys(t, a + b) == PrimaryKeys(t, a) + PrimaryKeys(t, b)
    ensures UniqueKeys(t, a + b) == UniqueKeys(t, a) + UniqueKeys(t, b)
    ensures Ids(a + b) == Ids(a) + Ids(b)
  {
    assert forall r :: r in a + b <==> r in a || r in b;
  }

  lemma KeysAppend(t: TableName, a: seq<Row>, r: Row)
    ensures PrimaryKeys(t, a + [r]) == PrimaryKeys(t, a) + {PrimaryKey(t, r)}
    ensures UniqueKeys(t, a + [r]) == UniqueKeys(t, a) + {UniqueKey(t, r)}
    ensures Ids(a + [r]) == Ids(a) + {r.id}
  {
    assert forall x :: x in a + [r] <==> x in a || x == r;
  }

  lemma {:induction false} OwnersAppend(rows: seq<Row>, r: Row)
    ensures Owners(rows + [r]) == Owners(rows)[Norm(r.email) := r.id]
  {
    assert (rows + [r])[..|rows|] == rows;
  }

  lemma {:induction false} OwnersOne(r: Row)
    ensures Owners([r]) == map[Norm(r.email) := r.id]
  {
    OwnersAppend([], r);
    assert [] + [r] == [r];
  }

  lemma {:induction false} OwnersKeys(rows: seq<Row>)
    ensures Owners(rows).Keys == UniqueKeys(Accounts, rows)
  {
    if rows != [] {
      var front, last := rows[..|rows| - 1], rows[|rows| - 1];
      OwnersKeys(front);
      assert rows == front + [last];
      KeysAppend(Accounts, front, last);
    }
  }

  /** What the database enforces on one table: primary keys and the raw unique column. */
  ghost predicate Enforced(t: TableName, rows: seq<Row>) {
    && (forall i, j :: 0 <= i < j < |rows| ==> PrimaryKey(t, rows[i]) != PrimaryKey(t, rows[j]))
    && (HasUnique(t) ==>
          forall i, j :: 0 <= i < j < |rows| ==> RawUnique(t, rows[i]) != RawUnique(t, rows[j]))
  }

  /** What the account store means to keep: on top, emails differ after normalisation. */
  ghost predicate Sound(t: TableName, rows: seq<Row>) {
    && Enforced(t, rows)
    && (t.Accounts? ==>
          forall i, j :: 0 <= i < j < |rows| ==> Norm(rows[i].email) != Norm(rows[j].email))
  }

  ghost predicate EnforcedDb(db: Db) { forall t :: t in db ==> Enforced(t, db[t]) }

  ghost predicate SoundDb(db: Db) { forall t :: t in db ==> Sound(t, db[t]) }

  /** With normalised-distinct emails, Owners is the exact inverse of the email column. */
  lemma {:induction false} OwnersExact(rows: seq<Row>, i: nat)
    requires forall i, j :: 0 <= i < j < |rows| ==> Norm(rows[i].email) != Norm(rows[j].email)
    requires i < |rows|
    ensures Norm(rows[i].email) in Owners(rows) && Owners(rows)[Norm(rows[i].email)] == rows[i].id
  {
    if i < |rows| - 1 {
      OwnersExact(rows[..|rows| - 1], i);
      assert Norm(rows[i].email) != Norm(rows[|rows| - 1].email);
    }
  }

  /** An address is held by an account whose row is in the table. */
  lemma {:induction false} OwnerHasRow(rows: seq<Row>, email: string)
    requires email in Owners(rows)
    ensures exists r :: r in rows && Norm(r.email) == email && r.id == Owners(rows)[email]
  {
    var last := rows[|rows| - 1];
    if Norm(last.email) != email {
      OwnerHasRow(rows[..|rows| - 1], email);
      var r :| r in rows[..|rows| - 1] && Norm(r.email) == email && r.id == Owners(rows[..|rows| - 1])[email];
      assert r in rows;
    } else {
      assert last in rows;
    }
  }
}
