/** Child rows that name no account (backend/scripts/migrate_accounts_to_postgres.py:396-403). */
module OrphanRows {
  import opened AccountsTables
  import opened MergePlan
  import opened AccountsMerge
  import opened MergeGuarantees

  ghost predicate NamesAccounts(rows: seq<Row>) { forall r :: r in rows ==> r.accountId != "" }

  /** Every child row the merge put into the table has its account in the target. */
  ghost predicate ChildrenHaveAccounts(db: Db, data: Db, o: Options, t: TableName)
    requires t in db && Accounts in db && t in Merged(db, data, o) && Accounts in Merged(db, data, o)
    requires |db[t]| <= |Merged(db, data, o)[t]|
  {
    forall r :: r in Merged(db, data, o)[t][|db[t]|..] ==> r.accountId in Ids(Merged(db, data, o)[Accounts])
  }

  /** A suffix of which each index holds a member holds only members. */
  lemma SuffixMembers(after: seq<Row>, from: nat, rows: seq<Row>)
    requires from <= |after| && forall i :: from <= i < |after| ==> after[i] in rows
    ensures forall r :: r in after[from..] ==> r in rows
  {
  }

  lemma KeepsTable(db: Db, data: Db, o: Options, t: TableName)
    requires t in db && Commits(db, data, o)
    ensures t in Merged(db, data, o)
  {
    PlanAt(db, data, o, t);
  }

  lemma MergeKeepsTables(db: Db, data: Db, o: Options, t: TableName)
    requires t in db && Commits(db, data, o)
    ensures t in Merged(db, data, o) && |db[t]| <= |Merged(db, data, o)[t]|
    ensures forall r :: r in Merged(db, data, o)[t][|db[t]|..] ==> r in RowsOf(data, t)
  {
    KeepsTable(db, data, o, t);
    EveryRowAccountedFor(db, data, o, t);
    SuffixMembers(Merged(db, data, o)[t], |db[t]|, RowsOf(data, t));
  }

  /** The guarantee a reader expects of a source table, over every target and every
      committed merge into it. */
  ghost predicate NeverOrphans(data: Db, t: TableName) {
    forall db: Db, o: Options ::
      Commits(db, data, o) && Accounts in db && t in db && "" !in Ids(db[Accounts])
      ==> t in Merged(db, data, o) && Accounts in Merged(db, data, o)
          && |db[t]| <= |Merged(db, data, o)[t]| && ChildrenHaveAccounts(db, data, o, t)
  }

  lemma NamedRowsHaveAccounts(db: Db, data: Db, o: Options, t: TableName)
    requires Commits(db, data, o) && Accounts in db && t in db && !t.Accounts?
    requires NamesAccounts(RowsOf(data, t))
    ensures t in Merged(db, data, o) && Accounts in Merged(db, data, o)
    ensures |db[t]| <= |Merged(db, data, o)[t]| && ChildrenHaveAccounts(db, data, o, t)
  {
    MergeKeepsTables(db, data, o, t);
    MergeKeepsTables(db, data, o, Accounts);
    ChildRowsHaveAccounts(db, data, o, t);
  }

  lemma {:induction false} EarlierKeys(t: TableName, rows: seq<Row>, known: set<string>, i: nat)
    requires i < |rows| && Enforced(t, rows) && !t.Accounts?
    ensures var st := PlanOf(t, rows[..i], [], known);
            && PrimaryKey(t, rows[i]) !in st.pks
            && (HasUnique(t) ==> UniqueKey(t, rows[i]) !in st.uniq)
  {
    var st := PlanOf(t, rows[..i], [], known);
    PlanTracks(t, rows[..i], [], known);
    PlanCounts(t, rows[..i], [], known);
    assert [] + st.payload == st.payload;
    forall r | r in st.payload
      ensures PrimaryKey(t, r) != PrimaryKey(t, rows[i])
      ensures HasUnique(t) ==> UniqueKey(t, r) != UniqueKey(t, rows[i])
    {
      var j :| 0 <= j < i && rows[..i][j] == r;
      assert PrimaryKey(t, rows[j]) != PrimaryKey(t, rows[i]);
      assert HasUnique(t) ==> RawUnique(t, rows[j]) != RawUnique(t, rows[i]);
    }
  }

  /** Into an empty table a row that names no account is always inserted. */
  lemma NamelessInserted(t: TableName, rows: seq<Row>, known: set<string>, i: nat)
    requires i < |rows| && Enforced(t, rows) && !t.Accounts? && rows[i].accountId == ""
    ensures rows[i] in PlanOf(t, rows, [], known).payload
  {
    EarlierKeys(t, rows, known, i);
    RowsExplained(t, rows, [], known, i);
  }

  lemma OrphanInserted(data: Db, t: TableName, i: nat) returns (db: Db, o: Options)
    requires !t.Accounts? && t in data && Enforced(t, data[t]) && i < |data[t]| && data[t][i].accountId == ""
    requires NoEmptyId(RowsOf(data, Accounts))
    ensures Commits(db, data, o) && Accounts in db && t in db && "" !in Ids(db[Accounts])
    ensures t in Merged(db, data, o) && Accounts in Merged(db, data, o)
    ensures |db[t]| <= |Merged(db, data, o)[t]| && !ChildrenHaveAccounts(db, data, o, t)
  {
    db, o := map x | x in data.Keys + {Accounts, t} :: [], Options(true, false, false);
    assert Base(db, data, o) == db;
    MergeKeepsTables(db, data, o, t);
    MergeKeepsTables(db, data, o, Accounts);
    PlanAt(db, data, o, t);
    var known := PlansFor(db, data, o).accounts.known;
    NamelessInserted(t, data[t], known, i);
    var after := Merged(db, data, o)[t];
    assert after[|db[t]|..] == PlansFor(db, data, o).At(t).payload;
    MergedIds(db, data, o);
    assert data[t][i] in after[|db[t]|..] && data[t][i].accountId == "";
  }

  /** A source table never leaves an orphan behind, in any target, exactly when each of its
      rows names an account: the account check passes over an empty reference. */
  lemma NeverOrphansExactly(data: Db, t: TableName)
    requires !t.Accounts? && t in data && Enforced(t, data[t]) && NoEmptyId(RowsOf(data, Accounts))
    ensures NeverOrphans(data, t) <==> NamesAccounts(data[t])
  {
    if NamesAccounts(data[t]) {
      forall db: Db, o: Options | Commits(db, data, o) && Accounts in db && t in db && "" !in Ids(db[Accounts])
        ensures t in Merged(db, data, o) && Accounts in Merged(db, data, o)
                && |db[t]| <= |Merged(db, data, o)[t]| && ChildrenHaveAccounts(db, data, o, t)
      {
        NamedRowsHaveAccounts(db, data, o, t);
      }
    } else {
      var i :| 0 <= i < |data[t]| && data[t][i].accountId == "";
      var db, o := OrphanInserted(data, t, i);
    }
  }
}
