/** Planning the merge of one table: which source rows are inserted, and why the
    others are not (backend/scripts/migrate_accounts_to_postgres.py:349-424). */
module MergePlan {
  import opened Text
  import opened AccountsTables

  datatype EmailConflict = EmailConflict(sqliteId: string, sqliteEmail: string, postgresId: string)

  /** The planner's working state after some prefix of the source rows. */
  datatype Plan = Plan(pks: set<seq<string>>, uniq: set<string>, owners: map<string, string>,
                       known: set<string>, payload: seq<Row>, skipped: nat,
                       conflicts: seq<EmailConflict>, migrated: seq<string>, skippedEmails: seq<string>)

  /** What becomes of one source row. */
  datatype Fate = Inserted | Present | Conflicting(owner: string) | Orphan | KeyTaken

  function StartPlan(t: TableName, table: seq<Row>, known: set<string>): Plan {
    Plan(PrimaryKeys(t, table),
         if HasUnique(t) then UniqueKeys(t, table) else {},
         if t.Accounts? then Owners(table) else map[],
         known, [], 0, [], [], [])
  }

  function FateOf(t: TableName, st: Plan, row: Row): Fate {
    if PrimaryKey(t, row) in st.pks then Present
    else if t.Accounts? && Norm(row.email) in st.owners && st.owners[Norm(row.email)] != "" &&
            st.owners[Norm(row.email)] != row.id then Conflicting(st.owners[Norm(row.email)])
    else if !t.Accounts? && row.accountId != "" && row.accountId !in st.known then Orphan
    else if HasUnique(t) && UniqueKey(t, row) in st.uniq then KeyTaken
    else Inserted
  }

  function PlanStep(t: TableName, st: Plan, row: Row): Plan {
    match FateOf(t, st, row)
    case Present =>
      st.(skipped := st.skipped + 1,
          skippedEmails := if t.Accounts? then st.skippedEmails + [row.email] else st.skippedEmails)
    case Conflicting(owner) =>
      st.(skipped := st.skipped + 1,
          conflicts := st.conflicts + [EmailConflict(row.id, row.email, owner)])
    case Inserted =>
      st.(pks := st.pks + {PrimaryKey(t, row)},
          uniq := if HasUnique(t) then st.uniq + {UniqueKey(t, row)} else st.uniq,
          owners := if t.Accounts? then st.owners[Norm(row.email) := row.id] else st.owners,
          known := if t.Accounts? then st.known + {row.id} else st.known,
          payload := st.payload + [row],
          migrated := if t.Accounts? then st.migrated + [row.email] else st.migrated)
    case _ => st.(skipped := st.skipped + 1)
  }

  function PlanRows(t: TableName, st: Plan, rows: seq<Row>): Plan {
    if rows == [] then st
    else PlanStep(t, PlanRows(t, st, rows[..|rows| - 1]), rows[|rows| - 1])
  }

  function PlanOf(t: TableName, rows: seq<Row>, table: seq<Row>, known: set<string>): Plan {
    PlanRows(t, StartPlan(t, table, known), rows)
  }

  /** `_plan_table`: the loop over the source rows, each branch as the program takes it. */
  method PlanTable(t: TableName, rows: seq<Row>, table: seq<Row>, knownAccountIds: set<string>)
    returns (plan: Plan)
    ensures plan == PlanOf(t, rows, table, knownAccountIds)
  {
    var existingPk := PrimaryKeys(t, table);
    var existingUnique := if HasUnique(t) then UniqueKeys(t, table) else {};
    var emailOwners := if t.Accounts? then Owners(table) else map[];
    var known := knownAccountIds;
    var payload, skipped, conflicts, migrated, skippedEmails := [], 0, [], [], [];
    var i := 0;
    while i < |rows|
      invariant 0 <= i <= |rows|
      invariant Plan(existingPk, existingUnique, emailOwners, known, payload, skipped,
                     conflicts, migrated, skippedEmails)
             == PlanOf(t, rows[..i], table, knownAccountIds)
    {
      var row := rows[i];
      assert rows[..i + 1][..i] == rows[..i];
      i := i + 1;
      var key := PrimaryKey(t, row);
      if key in existingPk {
        skipped := skipped + 1;
        if t.Accounts? {
          skippedEmails := skippedEmails + [row.email];
        }
        continue;
      }
      if t.Accounts? {
        var email := Norm(row.email);
        if email in emailOwners && emailOwners[email] != "" && emailOwners[email] != row.id {
          conflicts := conflicts + [EmailConflict(row.id, row.email, emailOwners[email])];
          skipped := skipped + 1;
          continue;
        }
      } else if row.accountId != "" && row.accountId !in known {
        skipped := skipped + 1;
        continue;
      }
      if HasUnique(t) && UniqueKey(t, row) in existingUnique {
        skipped := skipped + 1;
        continue;
      }
      payload := payload + [row];
      existingPk := existingPk + {key};
      if HasUnique(t) {
        existingUnique := existingUnique + {UniqueKey(t, row)};
      }
      if t.Accounts? {
        emailOwners := emailOwners[Norm(row.email) := row.id];
        migrated := migrated + [row.email];
        known := known + {row.id};
      }
    }
    assert rows[..i] == rows;
    plan := Plan(existingPk, existingUnique, emailOwners, known, payload, skipped,
                 conflicts, migrated, skippedEmails);
  }

  /** The planner's sets are, at every step, exactly those of the table as it would
      stand with the payload already inserted. */
  ghost predicate Tracks(t: TableName, st: Plan, table: seq<Row>, known: set<string>) {
    var grown := table + st.payload;
    && st.pks == PrimaryKeys(t, grown)
    && st.uniq == (if HasUnique(t) then UniqueKeys(t, grown) else {})
    && st.owners == (if t.Accounts? then Owners(grown) else map[])
    && st.known == (if t.Accounts? then known + Ids(st.payload) else known)
  }

  lemma TracksStep(t: TableName, st: Plan, row: Row, table: seq<Row>, known: set<string>)
    requires Tracks(t, st, table, known)
    ensures Tracks(t, PlanStep(t, st, row), table, known)
  {
    var next := PlanStep(t, st, row);
    if FateOf(t, st, row).Inserted? {
      var grown := table + st.payload;
      assert table + next.payload == grown + [row];
      KeysAppend(t, grown, row);
      assert next.pks == PrimaryKeys(t, grown + [row]);
      assert HasUnique(t) ==> next.uniq == UniqueKeys(t, grown + [row]);
      OwnersAppend(grown, row);
      KeysAppend(t, st.payload, row);
    } else {
      assert next.payload == st.payload;
    }
  }

  lemma {:induction false} PlanTracks(t: TableName, rows: seq<Row>, table: seq<Row>, known: set<string>)
    ensures Tracks(t, PlanOf(t, rows, table, known), table, known)
  {
    if rows == [] {
      assert table + [] == table;
    } else {
      PlanTracks(t, rows[..|rows| - 1], table, known);
      TracksStep(t, PlanOf(t, rows[..|rows| - 1], table, known), rows[|rows| - 1], table, known);
    }
  }

  lemma PlanOfLast(t: TableName, front: seq<Row>, row: Row, table: seq<Row>, known: set<string>)
    ensures PlanOf(t, front + [row], table, known) == PlanStep(t, PlanOf(t, front, table, known), row)
  {
    assert (front + [row])[..|front|] == front;
  }

  lemma {:induction false} PlanRowsConcat(t: TableName, st: Plan, a: seq<Row>, b: seq<Row>)
    ensures PlanRows(t, st, a + b) == PlanRows(t, PlanRows(t, st, a), b)
  {
    if b == [] {
      assert a + b == a;
    } else {
      var front, last := b[..|b| - 1], b[|b| - 1];
      assert a + b == (a + front) + [last] && (a + b)[..|a + b| - 1] == a + front;
      PlanRowsConcat(t, st, a, front);
    }
  }

  /** The addresses with an owner are those the unique check refuses. */
  lemma TakenEmails(rows: seq<Row>, table: seq<Row>, known: set<string>, i: nat)
    requires i <= |rows|
    ensures PlanOf(Accounts, rows[..i], table, known).owners.Keys == PlanOf(Accounts, rows[..i], table, known).uniq
  {
    var st := PlanOf(Accounts, rows[..i], table, known);
    PlanTracks(Accounts, rows[..i], table, known);
    OwnersKeys(table + st.payload);
  }

  ghost predicate OwnedBy(st: Plan, e: string, owner: string) {
    st.owners.Keys == st.uniq && e in st.owners && st.owners[e] == owner
  }

  lemma OwnedByStep(st: Plan, row: Row, e: string, owner: string)
    requires OwnedBy(st, e, owner)
    ensures OwnedBy(PlanStep(Accounts, st, row), e, owner)
  {
  }

  lemma {:induction false} OwnedByOn(st: Plan, rows: seq<Row>, e: string, owner: string)
    requires OwnedBy(st, e, owner)
    ensures OwnedBy(PlanRows(Accounts, st, rows), e, owner)
  {
    if rows != [] {
      OwnedByOn(st, rows[..|rows| - 1], e, owner);
      OwnedByStep(PlanRows(Accounts, st, rows[..|rows| - 1]), rows[|rows| - 1], e, owner);
    }
  }

  /** Once an email is taken its owner stays for the rest of the plan. */
  lemma OwnerStays(rows: seq<Row>, table: seq<Row>, known: set<string>, m: nat, n: nat, e: string)
    requires m <= n <= |rows| && e in PlanOf(Accounts, rows[..m], table, known).owners
    ensures e in PlanOf(Accounts, rows[..n], table, known).owners
    ensures PlanOf(Accounts, rows[..n], table, known).owners[e] == PlanOf(Accounts, rows[..m], table, known).owners[e]
  {
    var st := PlanOf(Accounts, rows[..m], table, known);
    TakenEmails(rows, table, known, m);
    assert rows[..n] == rows[..m] + rows[m..n];
    PlanRowsConcat(Accounts, StartPlan(Accounts, table, known), rows[..m], rows[m..n]);
    OwnedByOn(st, rows[m..n], e, st.owners[e]);
  }

  /** Two plans before which every account row has the same fate. */
  ghost predicate SameSets(a: Plan, b: Plan) { a.pks == b.pks && a.uniq == b.uniq && a.owners == b.owners }

  lemma SameSetsStep(st: Plan, start: Plan, row: Row)
    requires SameSets(st, start) && !FateOf(Accounts, start, row).Inserted?
    ensures SameSets(PlanStep(Accounts, st, row), start)
  {
    assert FateOf(Accounts, st, row) == FateOf(Accounts, start, row);
  }

  /** Rows of which none would be inserted at the start leave the plan's sets alone. */
  lemma {:induction false} NoneGetsIn(start: Plan, rows: seq<Row>)
    requires forall r :: r in rows ==> !FateOf(Accounts, start, r).Inserted?
    ensures SameSets(PlanRows(Accounts, start, rows), start)
  {
    if rows != [] {
      var front, last := rows[..|rows| - 1], rows[|rows| - 1];
      assert last in rows && forall r :: r in front ==> r in rows;
      NoneGetsIn(start, front);
      SameSetsStep(PlanRows(Accounts, start, front), start, last);
    }
  }

  /** Every source row is either inserted or counted as skipped, and the payload
      consists of source rows. */
  lemma {:induction false} PlanCounts(t: TableName, rows: seq<Row>, table: seq<Row>, known: set<string>)
    ensures |PlanOf(t, rows, table, known).payload| + PlanOf(t, rows, table, known).skipped == |rows|
    ensures forall r :: r in PlanOf(t, rows, table, known).payload ==> r in rows
  {
    if rows != [] {
      PlanCounts(t, rows[..|rows| - 1], table, known);
    }
  }

  /** The new row's key, and its value in the unique column, are nobody's. */
  lemma NewKeys(t: TableName, rows: seq<Row>, row: Row, i: nat)
    requires i < |rows| && PrimaryKey(t, row) !in PrimaryKeys(t, rows)
    requires HasUnique(t) ==> UniqueKey(t, row) !in UniqueKeys(t, rows)
    ensures PrimaryKey(t, rows[i]) != PrimaryKey(t, row)
    ensures HasUnique(t) ==> UniqueKey(t, rows[i]) != UniqueKey(t, row) && RawUnique(t, rows[i]) != RawUnique(t, row)
  {
    assert rows[i] in rows;
    assert PrimaryKey(t, rows[i]) in PrimaryKeys(t, rows);
    assert UniqueKey(t, rows[i]) in UniqueKeys(t, rows);
  }

  lemma EnforcedAppend(t: TableName, rows: seq<Row>, row: Row)
    requires Enforced(t, rows)
    requires PrimaryKey(t, row) !in PrimaryKeys(t, rows)
    requires HasUnique(t) ==> UniqueKey(t, row) !in UniqueKeys(t, rows)
    ensures Enforced(t, rows + [row])
  {
    forall i | 0 <= i < |rows|
      ensures PrimaryKey(t, rows[i]) != PrimaryKey(t, row)
      ensures HasUnique(t) ==> RawUnique(t, rows[i]) != RawUnique(t, row)
    {
      NewKeys(t, rows, row, i);
    }
  }

  lemma SoundAppend(t: TableName, rows: seq<Row>, row: Row)
    requires Sound(t, rows)
    requires PrimaryKey(t, row) !in PrimaryKeys(t, rows)
    requires HasUnique(t) ==> UniqueKey(t, row) !in UniqueKeys(t, rows)
    ensures Sound(t, rows + [row])
  {
    EnforcedAppend(t, rows, row);
    if t.Accounts? {
      forall i | 0 <= i < |rows| ensures Norm(rows[i].email) != Norm(row.email) {
        NewKeys(t, rows, row, i);
      }
    }
  }

  lemma KeepsConstraintsStep(t: TableName, st: Plan, row: Row, table: seq<Row>, known: set<string>)
    requires Tracks(t, st, table, known) && Enforced(t, table + st.payload)
    ensures Enforced(t, table + PlanStep(t, st, row).payload)
    ensures Sound(t, table + st.payload) ==> Sound(t, table + PlanStep(t, st, row).payload)
  {
    if FateOf(t, st, row).Inserted? {
      EnforcedAppend(t, table + st.payload, row);
      if Sound(t, table + st.payload) {
        SoundAppend(t, table + st.payload, row);
      }
      assert table + (st.payload + [row]) == table + st.payload + [row];
    } else {
      assert PlanStep(t, st, row).payload == st.payload;
    }
  }

  /** The insert of a plan's payload never meets a constraint of the database, and a
      table with normalised-distinct emails keeps them distinct. */
  lemma {:induction false} PlanKeepsConstraints(t: TableName, rows: seq<Row>, table: seq<Row>, known: set<string>)
    requires Enforced(t, table)
    ensures Enforced(t, table + PlanOf(t, rows, table, known).payload)
    ensures Sound(t, table) ==> Sound(t, table + PlanOf(t, rows, table, known).payload)
  {
    if rows == [] {
      assert table + [] == table;
    } else {
      var st, row := PlanOf(t, rows[..|rows| - 1], table, known), rows[|rows| - 1];
      PlanKeepsConstraints(t, rows[..|rows| - 1], table, known);
      PlanTracks(t, rows[..|rows| - 1], table, known);
      KeepsConstraintsStep(t, st, row, table, known);
    }
  }

  /** A planned child row names an account that is known, or names none at all. */
  lemma {:induction false} PayloadAccountsKnown(t: TableName, rows: seq<Row>, table: seq<Row>, known: set<string>)
    requires !t.Accounts?
    ensures PlanOf(t, rows, table, known).known == known
    ensures forall r :: r in PlanOf(t, rows, table, known).payload ==> r.accountId == "" || r.accountId in known
  {
    if rows != [] {
      PayloadAccountsKnown(t, rows[..|rows| - 1], table, known);
    }
  }

  /** Why a row was not inserted is still true of the finished plan. */
  ghost predicate Explained(t: TableName, fate: Fate, row: Row, end: Plan) {
    match fate
    case Inserted => PrimaryKey(t, row) in end.pks && row in end.payload
    case Present => PrimaryKey(t, row) in end.pks
    case Conflicting(o) => t.Accounts? && Norm(row.email) in end.owners && end.owners[Norm(row.email)] == o
                           && o != "" && o != row.id
                           && EmailConflict(row.id, row.email, o) in end.conflicts
    case Orphan => !t.Accounts? && row.accountId != "" && row.accountId !in end.known
    case KeyTaken => HasUnique(t) && UniqueKey(t, row) in end.uniq
                     && (t.Accounts? ==> Norm(row.email) in end.owners && end.owners[Norm(row.email)] == "")
  }

  lemma ExplainedStep(t: TableName, fate: Fate, was: Row, st: Plan, row: Row)
    requires Explained(t, fate, was, st)
    requires t.Accounts? ==> st.owners.Keys == st.uniq
    ensures Explained(t, fate, was, PlanStep(t, st, row))
  {
  }

  lemma {:induction false} RowsExplained(t: TableName, rows: seq<Row>, table: seq<Row>, known: set<string>, i: nat)
    requires i < |rows|
    ensures var st := PlanOf(t, rows[..i], table, known);
            Explained(t, FateOf(t, st, rows[i]), rows[i], PlanOf(t, rows, table, known))
  {
    var front, row := rows[..|rows| - 1], rows[|rows| - 1];
    assert rows == front + [row];
    PlanOfLast(t, front, row, table, known);
    if i < |front| {
      RowsExplained(t, front, table, known, i);
      assert front[..i] == rows[..i];
      if t.Accounts? {
        TakenEmails(front, table, known, |front|);
        assert front[..|front|] == front;
      }
      ExplainedStep(t, FateOf(t, PlanOf(t, rows[..i], table, known), rows[i]), rows[i],
          PlanOf(t, front, table, known), row);
    } else {
      LastExplained(t, front, row, table, known);
    }
  }

  /** Once inserted, an id is among the planner's keys at every later turn. */
  lemma KeyStays(rows: seq<Row>, table: seq<Row>, known: set<string>, j: nat, i: nat)
    requires j < i <= |rows| && FateOf(Accounts, PlanOf(Accounts, rows[..j], table, known), rows[j]).Inserted?
    ensures PrimaryKey(Accounts, rows[j]) in PlanOf(Accounts, rows[..i], table, known).pks
  {
    RowsExplained(Accounts, rows[..i], table, known, j);
    assert rows[..i][..j] == rows[..j];
  }

  /** A row that reaches the unique check of the accounts table with its email taken
      finds that email held by the account whose id is empty: any other holder is
      reported as a conflict before. */
  lemma LastExplained(t: TableName, front: seq<Row>, row: Row, table: seq<Row>, known: set<string>)
    ensures var st := PlanOf(t, front, table, known);
            Explained(t, FateOf(t, st, row), row, PlanStep(t, st, row))
  {
    var st := PlanOf(t, front, table, known);
    PlanTracks(t, front, table, known);
    var grown := table + st.payload;
    if FateOf(t, st, row).KeyTaken? && t.Accounts? {
      OwnersKeys(grown);
      OwnerHasRow(grown, Norm(row.email));
      var r :| r in grown && Norm(r.email) == Norm(row.email) && r.id == Owners(grown)[Norm(row.email)];
      assert PrimaryKey(t, r) in PrimaryKeys(t, grown);
    }
  }
}
