/** How a merge and a restore come out, and which rows it takes in, told by the tables alone
    (backend/scripts/migrate_accounts_to_postgres.py:355-424, 462-558, 594-651). */
module MergeOutcome {
  import opened Text
  import opened AccountsTables
  import opened MergePlan
  import opened AccountsMerge
  import opened MergeGuarantees

  // ---- whether it starts --------------------------------------------------------------------

  /** A target that holds a row is refused without force, and then left alone. */
  lemma NotEmptyExactly(db: Db, data: Db, o: Options)
    ensures OutcomeOf(db, data, o) == TargetNotEmpty <==> !o.force && exists t :: t in db && |db[t]| > 0
    ensures OutcomeOf(db, data, o) == TargetNotEmpty ==> Merged(db, data, o) == db
  {
    if t :| t in db && |db[t]| > 0 {
      assert db[t] != [];
    }
  }

  /** Else it is refused, and left alone, exactly when a table of the source is not there. */
  lemma SchemaMissingExactly(db: Db, data: Db, o: Options)
    ensures OutcomeOf(db, data, o) == SchemaMissing
            <==> (o.force || forall t :: t in db ==> |db[t]| == 0) && exists t :: t in data && t !in db
    ensures OutcomeOf(db, data, o) == SchemaMissing ==> Merged(db, data, o) == db
  {
    NotEmptyExactly(db, data, o);
  }

  /** What is left is a merge, or an update of an email that the database refused: only of an
      account in a source row's way, and only under `prefer_source`. */
  lemma ViolationOnly(db: Db, data: Db, o: Options)
    requires OutcomeOf(db, data, o) == ConstraintViolation
    ensures o.preferSource && !o.dryRun && Accounts in data && Accounts in db && Merged(db, data, o) == db
  {
    MovedFrame(db, data, o);
  }

  // ---- what it reports ------------------------------------------------------------------------

  lemma CountsExactly(db: Db, data: Db, o: Options)
    requires OutcomeOf(db, data, o).Done?
    ensures var r := OutcomeOf(db, data, o).report;
            && r.before == CountRows(db) && r.after == CountRows(Merged(db, data, o))
            && (o.dryRun ==> Merged(db, data, o) == db)
  {
    if o.dryRun {
      NothingWritten(db, data, o);
    }
  }

  lemma CountedRows(db: Db)
    ensures CountRows(db).Keys == db.Keys && forall t :: t in db ==> CountRows(db)[t] == |db[t]|
  {
  }

  /** Mode and counts: of the target as it was, and as the merge leaves it. */
  lemma ReportExactly(db: Db, data: Db, o: Options)
    requires OutcomeOf(db, data, o).Done?
    ensures var r := OutcomeOf(db, data, o).report;
            && (r.mode == DryRunMode <==> o.dryRun)
            && (r.mode == MergeMode <==> !o.dryRun && o.force)
            && r.before.Keys == db.Keys && (forall t :: t in db ==> r.before[t] == |db[t]|)
            && r.after.Keys == Merged(db, data, o).Keys
            && (forall t :: t in r.after ==> r.after[t] == |Merged(db, data, o)[t]|)
            && (o.dryRun ==> Merged(db, data, o) == db) && (!o.preferSource ==> r.displaced == [])
  {
    CountsExactly(db, data, o);
    CountedRows(db);
    CountedRows(Merged(db, data, o));
    MovedFrame(db, data, o);
  }

  // ---- which rows it takes in ---------------------------------------------------------------------

  ghost predicate HasId(rows: seq<Row>, id: string) { exists r :: r in rows && r.id == id }

  ghost predicate HasEmail(rows: seq<Row>, e: string) { exists r :: r in rows && Norm(r.email) == e }

  /** The last row with this address after normalisation is this account's. */
  ghost predicate HeldBy(rows: seq<Row>, e: string, id: string) {
    exists k :: 0 <= k < |rows| && Norm(rows[k].email) == e && rows[k].id == id && NoneSince(rows, k + 1, e)
  }

  ghost predicate NoneSince(rows: seq<Row>, from: int, e: string) {
    forall l :: 0 <= from <= l < |rows| ==> Norm(rows[l].email) != e
  }

  lemma {:induction false} StillHeld(front: seq<Row>, last: Row, e: string, id: string)
    requires Norm(last.email) != e && HeldBy(front, e, id)
    ensures HeldBy(front + [last], e, id)
  {
    var rows := front + [last];
    var k :| 0 <= k < |front| && Norm(front[k].email) == e && front[k].id == id && NoneSince(front, k + 1, e);
    assert rows[k] == front[k] && NoneSince(rows, k + 1, e);
  }

  lemma {:induction false} HeldBefore(front: seq<Row>, last: Row, e: string, id: string)
    requires Norm(last.email) != e && HeldBy(front + [last], e, id)
    ensures HeldBy(front, e, id)
  {
    var rows := front + [last];
    var k :| 0 <= k < |rows| && Norm(rows[k].email) == e && rows[k].id == id && NoneSince(rows, k + 1, e);
    assert forall l :: 0 <= l < |front| ==> front[l] == rows[l];
    assert front[k] == rows[k] && NoneSince(front, k + 1, e);
  }

  lemma {:induction false} HeldByLast(front: seq<Row>, last: Row, e: string, id: string)
    requires Norm(last.email) == e
    ensures HeldBy(front + [last], e, id) <==> last.id == id
  {
    var rows := front + [last];
    assert rows[|front|] == last && NoneSince(rows, |front| + 1, e);
  }

  lemma {:induction false} OwnerIsLast(rows: seq<Row>, e: string, id: string)
    ensures HeldBy(rows, e, id) <==> e in Owners(rows) && Owners(rows)[e] == id
  {
    if rows != [] {
      var front, last := rows[..|rows| - 1], rows[|rows| - 1];
      assert rows == front + [last];
      OwnerIsLast(front, e, id);
      if Norm(last.email) == e {
        HeldByLast(front, last, e, id);
      } else if HeldBy(front, e, id) {
        StillHeld(front, last, e, id);
      } else if HeldBy(rows, e, id) {
        HeldBefore(front, last, e, id);
      }
    }
  }

  lemma {:induction false} EmailTaken(rows: seq<Row>, e: string)
    ensures e in Owners(rows) <==> HasEmail(rows, e)
    ensures e in UniqueKeys(Accounts, rows) <==> HasEmail(rows, e)
  {
    OwnersKeys(rows);
    forall r | r in rows && Norm(r.email) == e ensures e in UniqueKeys(Accounts, rows) {
      assert UniqueKey(Accounts, r) in UniqueKeys(Accounts, rows);
    }
  }

  /** The table as it stands when the i-th source row is looked at. */
  ghost function Standing(t: TableName, rows: seq<Row>, table: seq<Row>, known: set<string>, i: nat): seq<Row>
    requires i <= |rows|
  {
    table + PlanOf(t, rows[..i], table, known).payload
  }

  /** An account row is taken in exactly when, as the table stands at its turn, no row has its id
      or its normalised email; it is a conflict with an account exactly when no row has its id and
      the last row with its email is that account's, if it has an id. */
  lemma {:induction false} AccountFateExactly(rows: seq<Row>, table: seq<Row>, known: set<string>, i: nat, x: string)
    requires i < |rows|
    ensures var fate, now := FateOf(Accounts, PlanOf(Accounts, rows[..i], table, known), rows[i]),
                             Standing(Accounts, rows, table, known, i);
            && (fate == Inserted <==> !HasId(now, rows[i].id) && !HasEmail(now, Norm(rows[i].email)))
            && (fate == Present <==> HasId(now, rows[i].id))
            && (fate == Conflicting(x) <==>
                  !HasId(now, rows[i].id) && x != "" && HeldBy(now, Norm(rows[i].email), x))
  {
    var now, e := Standing(Accounts, rows, table, known, i), Norm(rows[i].email);
    PlanTracks(Accounts, rows[..i], table, known);
    IdIsKey(now, rows[i]);
    assert HasId(now, rows[i].id) <==> rows[i].id in Ids(now);
    EmailTaken(now, e);
    OwnerIsLast(now, e, x);
    if e in Owners(now) {
      OwnerHasRow(now, e);
    }
  }

  /** The columns by which a child row is told from others: its key, and its hash. */
  ghost predicate SameChild(t: TableName, a: Row, b: Row) {
    if t.SessionOwners? then a.sessionId == b.sessionId
    else if t.UsageCounters? then a.accountId == b.accountId && a.counter == b.counter && a.period == b.period
    else a.id == b.id
  }

  ghost predicate TokenTable(t: TableName) { t == ApiKeys || t == LoginTokens }

  lemma {:induction false} SameChildKeys(t: TableName, rows: seq<Row>, row: Row)
    requires !t.Accounts?
    ensures PrimaryKey(t, row) in PrimaryKeys(t, rows) <==> exists r :: r in rows && SameChild(t, r, row)
    ensures TokenTable(t)
            ==> (UniqueKey(t, row) in UniqueKeys(t, rows) <==> exists r :: r in rows && r.hash == row.hash)
  {
    forall r | r in rows ensures PrimaryKey(t, r) == PrimaryKey(t, row) <==> SameChild(t, r, row) {
      KeyColumns(t, r, row);
    }
    if r :| r in rows && SameChild(t, r, row) {
      assert PrimaryKey(t, r) in PrimaryKeys(t, rows);
    }
    if TokenTable(t) {
      if r :| r in rows && r.hash == row.hash {
        assert UniqueKey(t, r) in UniqueKeys(t, rows);
      }
    }
  }

  lemma KeyColumns(t: TableName, a: Row, b: Row)
    requires !t.Accounts?
    ensures PrimaryKey(t, a) == PrimaryKey(t, b) <==> SameChild(t, a, b)
  {
    var k, l := PrimaryKey(t, a), PrimaryKey(t, b);
    if k == l {
      assert k[0] == l[0];
      if t.UsageCounters? {
        assert k[1] == l[1] && k[2] == l[2];
      }
    }
  }

  /** A child row is taken in exactly when it names no account or one that is known, no row that
      stands has its key, and, for a key or a token, none has its hash. */
  lemma {:induction false} ChildFateExactly(t: TableName, rows: seq<Row>, table: seq<Row>, known: set<string>, i: nat)
    requires !t.Accounts? && i < |rows|
    ensures var now := Standing(t, rows, table, known, i);
            FateOf(t, PlanOf(t, rows[..i], table, known), rows[i]) == Inserted
            <==> && (rows[i].accountId == "" || rows[i].accountId in known)
                 && (forall r :: r in now ==> !SameChild(t, r, rows[i]))
                 && (TokenTable(t) ==> forall r :: r in now ==> r.hash != rows[i].hash)
  {
    PlanTracks(t, rows[..i], table, known);
    SameChildKeys(t, Standing(t, rows, table, known, i), rows[i]);
  }

  /** The rows taken in, in source order. */
  lemma {:induction false} TakenInOrder(t: TableName, rows: seq<Row>, table: seq<Row>, known: set<string>, i: nat)
    requires i < |rows|
    ensures PlanOf(t, rows[..i + 1], table, known).payload
            == PlanOf(t, rows[..i], table, known).payload
               + if FateOf(t, PlanOf(t, rows[..i], table, known), rows[i]) == Inserted then [rows[i]] else []
  {
    assert rows[..i + 1] == rows[..i] + [rows[i]];
    PlanOfLast(t, rows[..i], rows[i], table, known);
  }

  /** What a committed merge leaves of the accounts: the live ones, moved if the source is
      preferred, and then what it takes in. */
  lemma AccountsLeft(db: Db, data: Db, o: Options)
    requires Commits(db, data, o) && Accounts in db
    ensures Accounts in Base(db, data, o) && |Base(db, data, o)[Accounts]| == |db[Accounts]|
    ensures !o.preferSource ==> Base(db, data, o)[Accounts] == db[Accounts]
    ensures Accounts in Merged(db, data, o)
    ensures Merged(db, data, o)[Accounts]
            == var base := Base(db, data, o)[Accounts];
               base + PlanOf(Accounts, RowsOf(data, Accounts), base, KnownBefore(db, data)).payload
  {
    BaseFrame(db, data, o, Accounts);
    TableMerged(db, data, o, Accounts);
    PlanAt(db, data, o, Accounts);
  }

  /** And of another table: its live rows, and what is taken in when the known accounts are those
      of the merged table, or none if the source has no accounts table. */
  lemma ChildrenLeft(db: Db, data: Db, o: Options, t: TableName)
    requires Commits(db, data, o) && Accounts in db && t in db && !t.Accounts?
    ensures Accounts in Merged(db, data, o) && t in Merged(db, data, o)
    ensures Merged(db, data, o)[t]
            == db[t] + PlanOf(t, RowsOf(data, t), db[t],
                              if Accounts in data then Ids(Merged(db, data, o)[Accounts]) else {}).payload
  {
    BaseFrame(db, data, o, t);
    TableMerged(db, data, o, t);
    TableMerged(db, data, o, Accounts);
    PlanAt(db, data, o, t);
    PlanAt(db, data, o, Accounts);
    AccountsKnown(db, data, o);
  }

  // ---- how a restore ends ---------------------------------------------------------------------------

  /** Two rows of a table that are told from each other by nothing in its key. */
  ghost predicate SameRow(t: TableName, a: Row, b: Row) { if t.Accounts? then a.id == b.id else SameChild(t, a, b) }

  /** A source row that the table has no row for, and no conflict excuses: of its account, or of the
      account it names. */
  ghost predicate LostRow(t: TableName, row: Row, after: seq<Row>, conflicts: seq<EmailConflict>) {
    && (forall c :: c in conflicts ==> c.sqliteId != if t.Accounts? then row.id else row.accountId)
    && forall r :: r in after ==> !SameRow(t, r, row)
  }

  ghost predicate LostFrom(t: TableName, data: Db, after: Db, conflicts: seq<EmailConflict>) {
    t in data && t in after && exists row :: row in data[t] && LostRow(t, row, after[t], conflicts)
  }

  lemma {:induction false} AbsentMembers(t: TableName, rows: seq<Row>, existing: set<seq<string>>,
                                         excused: set<string>, key: seq<string>)
    ensures key in Absent(t, rows, existing, excused)
            <==> exists row :: row in rows && PrimaryKey(t, row) == key && key !in existing
                               && (if t.Accounts? then row.id else row.accountId) !in excused
  {
    if rows != [] {
      var front, last := rows[..|rows| - 1], rows[|rows| - 1];
      AbsentMembers(t, front, existing, excused, key);
      assert rows == front + [last];
      assert forall r :: r in rows <==> r in front || r == last;
    }
  }

  lemma KeyIsThere(t: TableName, rows: seq<Row>, row: Row)
    ensures PrimaryKey(t, row) in PrimaryKeys(t, rows) <==> exists r :: r in rows && SameRow(t, r, row)
  {
    if t.Accounts? {
      IdIsKey(rows, row);
      if r :| r in rows && r.id == row.id {
        assert SameRow(t, r, row);
      }
    } else {
      SameChildKeys(t, rows, row);
      if r :| r in rows && SameChild(t, r, row) {
        assert SameRow(t, r, row);
      }
    }
  }

  lemma RowIsLost(t: TableName, row: Row, after: seq<Row>, conflicts: seq<EmailConflict>)
    ensures LostRow(t, row, after, conflicts)
            <==> (if t.Accounts? then row.id else row.accountId) !in ConflictIds(conflicts)
                 && PrimaryKey(t, row) !in PrimaryKeys(t, after)
  {
    KeyIsThere(t, after, row);
  }

  /** The check after a restore lists exactly the tables that lost a row, with exactly the keys of
      the rows lost. */
  lemma {:induction false} MissingExactly(data: Db, after: Db, conflicts: seq<EmailConflict>, t: TableName)
    ensures t in MissingAfter(after, data, conflicts) <==> LostFrom(t, data, after, conflicts)
    ensures t in MissingAfter(after, data, conflicts) ==>
              forall key ::
                key in MissingAfter(after, data, conflicts)[t]
                <==> exists row :: row in data[t] && PrimaryKey(t, row) == key && LostRow(t, row, after[t], conflicts)
  {
    if t in data && t in after {
      forall row | row in data[t]
        ensures LostRow(t, row, after[t], conflicts)
                <==> (if t.Accounts? then row.id else row.accountId) !in ConflictIds(conflicts)
                     && PrimaryKey(t, row) !in PrimaryKeys(t, after[t])
      {
        RowIsLost(t, row, after[t], conflicts);
      }
      var absent := Absent(t, data[t], PrimaryKeys(t, after[t]), ConflictIds(conflicts));
      forall key
        ensures key in absent
                <==> exists row :: row in data[t] && PrimaryKey(t, row) == key && LostRow(t, row, after[t], conflicts)
      {
        AbsentMembers(t, data[t], PrimaryKeys(t, after[t]), ConflictIds(conflicts), key);
      }
      if row :| row in data[t] && LostRow(t, row, after[t], conflicts) {
        assert PrimaryKey(t, row) in absent;
      }
      if absent != [] {
        assert absent[0] in absent;
      }
    }
  }

  /** A restore ends as its merge failed, unverified when asked to be or on a dry run, as failed
      exactly when a source account is lost, and otherwise as restored, with the other tables that
      lost a row for advice. */
  lemma RestoreExactly(out: Outcome, after: Db, data: Db, o: Options, verify: bool)
    ensures var r := RestoreOf(out, after, data, o, verify);
            && (r.Failed? <==> !out.Done?) && (r.Failed? ==> r.outcome == out)
            && (r.Unverified? <==> out.Done? && (o.dryRun || !verify))
            && (out.Done? ==>
                  var lost := LostFrom(Accounts, data, after, out.report.conflicts);
                  && (r.VerifyFailed? <==> !o.dryRun && verify && lost)
                  && (r.Restored? <==> !o.dryRun && verify && !lost))
            && (r.Unverified? || r.Restored? ==> r.report == out.report)
            && (r.Restored? ==> forall t :: t in r.advisory <==> LostFrom(t, data, after, out.report.conflicts))
  {
    if out.Done? {
      forall t ensures t in MissingAfter(after, data, out.report.conflicts)
                       <==> LostFrom(t, data, after, out.report.conflicts)
      {
        MissingExactly(data, after, out.report.conflicts, t);
      }
    }
  }
}
