/** Repeating a merge (backend/scripts/migrate_accounts_to_postgres.py:307-346, 355-424, 495-529). */
module MergeRepeat {
  import opened AccountsTables
  import opened Displacement
  import opened MergePlan
  import opened AccountsMerge
  import opened MergeGuarantees

  function StillConflicting(conflicts: seq<EmailConflict>, ids: set<string>): seq<EmailConflict> {
    if conflicts == [] then []
    else
      var front, last := StillConflicting(conflicts[..|conflicts| - 1], ids), conflicts[|conflicts| - 1];
      if last.sqliteId in ids then front else front + [last]
  }

  lemma {:induction false} StillConflictingAll(conflicts: seq<EmailConflict>, ids: set<string>)
    ensures |StillConflicting(conflicts, ids)| <= |conflicts|
    ensures StillConflicting(conflicts, ids) == conflicts <==> forall c :: c in conflicts ==> c.sqliteId !in ids
  {
    if conflicts != [] {
      var front, last := conflicts[..|conflicts| - 1], conflicts[|conflicts| - 1];
      StillConflictingAll(front, ids);
      assert conflicts == front + [last];
      assert last in conflicts;
      if StillConflicting(conflicts, ids) == conflicts {
        assert last.sqliteId !in ids;
        assert (StillConflicting(front, ids) + [last])[..|front|] == StillConflicting(front, ids);
      }
    }
  }

  /** A row explained by a finished plan is not inserted when planned again from there. */
  lemma ReplannedRow(t: TableName, fate: Fate, row: Row, end: Plan, again: Plan)
    requires Explained(t, fate, row, end)
    requires again.pks == end.pks && again.uniq == end.uniq && again.owners == end.owners
    requires !t.Accounts? ==> again.known == end.known
    ensures !FateOf(t, again, row).Inserted?
    ensures FateOf(t, again, row).Conflicting? <==> fate.Conflicting? && PrimaryKey(t, row) !in end.pks
    ensures FateOf(t, again, row).Conflicting? ==> FateOf(t, again, row) == fate
  {
  }

  /** Planning the same rows against the table they were merged into inserts nothing,
      and reports again those conflicts whose account did not land after all. */
  lemma {:induction false} Replanned(t: TableName, rows: seq<Row>, table: seq<Row>, known: set<string>,
                                     known': set<string>, k: nat)
    requires k <= |rows|
    requires !t.Accounts? ==> known' == known
    ensures var first := PlanOf(t, rows, table, known);
            var table' := table + first.payload;
            var start, again := StartPlan(t, table', known'), PlanOf(t, rows[..k], table', known');
            && again.payload == [] && again.pks == start.pks && again.uniq == start.uniq
            && again.owners == start.owners && again.known == known'
            && again.conflicts == StillConflicting(PlanOf(t, rows[..k], table, known).conflicts, Ids(table'))
  {
    if k > 0 {
      var first := PlanOf(t, rows, table, known);
      var table' := table + first.payload;
      var row := rows[k - 1];
      Replanned(t, rows, table, known, known', k - 1);
      assert rows[..k][..k - 1] == rows[..k - 1];
      PlanTracks(t, rows, table, known);
      if !t.Accounts? {
        PayloadAccountsKnown(t, rows, table, known);
      }
      RowsExplained(t, rows, table, known, k - 1);
      var was, again := PlanOf(t, rows[..k - 1], table, known), PlanOf(t, rows[..k - 1], table', known');
      var fate := FateOf(t, was, row);
      ReplannedRow(t, fate, row, first, again);
      if t.Accounts? {
        IdIsKey(table', row);
      }
      ReplannedStep(t, was, again, row, Ids(table'));
    }
  }

  lemma {:induction false} ReplannedStep(t: TableName, was: Plan, again: Plan, row: Row, ids: set<string>)
    requires again.conflicts == StillConflicting(was.conflicts, ids)
    requires !FateOf(t, again, row).Inserted?
    requires FateOf(t, was, row).Conflicting? ==>
               FateOf(t, again, row) == (if row.id in ids then Present else FateOf(t, was, row))
    requires FateOf(t, again, row).Conflicting? ==> FateOf(t, was, row).Conflicting?
    ensures var next := PlanStep(t, again, row);
            && next.payload == again.payload && next.pks == again.pks && next.uniq == again.uniq
            && next.owners == again.owners && next.known == again.known
            && next.conflicts == StillConflicting(PlanStep(t, was, row).conflicts, ids)
  {
    if FateOf(t, was, row).Conflicting? {
      var c := EmailConflict(row.id, row.email, FateOf(t, was, row).owner);
      assert (was.conflicts + [c])[..|was.conflicts|] == was.conflicts;
    }
  }

  ghost predicate InsertsNothing(r: Report) { r.inserted == PerTable(0, 0, 0, 0, 0) }

  /** The second run starts, and has no address to park. */
  ghost predicate ParksNothingAgain(db: Db, data: Db, o: Options) {
    && Commits(db, data, o) && o.force
    && Moved(Merged(db, data, o), data, o) == StartMoving(RowsOf(Merged(db, data, o), Accounts))
  }

  lemma MergedKeys(db: Db, data: Db, o: Options)
    ensures Merged(db, data, o).Keys == db.Keys
  {
  }

  lemma NothingMovedBase(db: Db, data: Db, o: Options)
    requires Moved(db, data, o) == StartMoving(RowsOf(db, Accounts))
    ensures Base(db, data, o) == db
  {
    assert Accounts in db ==> db[Accounts := db[Accounts]] == db;
  }

  lemma StartsAgain(db: Db, db': Db, data: Db, o: Options)
    requires Commits(db, data, o) && o.force && db'.Keys == db.Keys && !Moved(db', data, o).failed
    ensures Commits(db', data, o)
  {
  }

  lemma AgainBase(db: Db, data: Db, o: Options)
    requires ParksNothingAgain(db, data, o)
    ensures Base(Merged(db, data, o), data, o) == Merged(db, data, o)
    ensures Merged(db, data, o).Keys == db.Keys
    ensures Commits(Merged(db, data, o), data, o)
  {
    MergedKeys(db, data, o);
    NothingMovedBase(Merged(db, data, o), data, o);
    StartsAgain(db, Merged(db, data, o), data, o);
  }

  lemma WholeTableReplanned(t: TableName, rows: seq<Row>, table: seq<Row>, known: set<string>, known': set<string>)
    requires !t.Accounts? ==> known' == known
    ensures var first := PlanOf(t, rows, table, known);
            var again := PlanOf(t, rows, table + first.payload, known');
            && again.payload == [] && again.known == known'
            && again.conflicts == StillConflicting(first.conflicts, Ids(table + first.payload))
  {
    Replanned(t, rows, table, known, known', |rows|);
    assert rows[..|rows|] == rows;
  }

  /** The second run knows the same accounts as the first did after its accounts table. */
  lemma KnownAgain(db: Db, data: Db, o: Options)
    requires ParksNothingAgain(db, data, o)
    ensures PlansFor(Merged(db, data, o), data, o).accounts.known == PlansFor(db, data, o).accounts.known
  {
    var db' := Merged(db, data, o);
    AgainBase(db, data, o);
    PlanAt(db, data, o, Accounts);
    PlanAt(db', data, o, Accounts);
    if Accounts in data {
      AccountsKnown(db, data, o);
      WholeTableReplanned(Accounts, data[Accounts], Base(db, data, o)[Accounts], KnownBefore(db, data),
          KnownBefore(db', data));
    }
  }

  lemma TableAgain(db: Db, data: Db, o: Options, t: TableName)
    requires ParksNothingAgain(db, data, o)
    ensures var again := PlansFor(Merged(db, data, o), data, o).At(t);
            && again.payload == []
            && (t in data
                ==> again.conflicts
                    == StillConflicting(PlansFor(db, data, o).At(t).conflicts, Ids(Merged(db, data, o)[t])))
            && (t !in data ==> again.conflicts == [] == PlansFor(db, data, o).At(t).conflicts)
  {
    var db' := Merged(db, data, o);
    AgainBase(db, data, o);
    KnownAgain(db, data, o);
    PlanAt(db, data, o, t);
    PlanAt(db', data, o, t);
    if t in data {
      WholeTableReplanned(t, data[t], Base(db, data, o)[t],
                          if t.Accounts? then KnownBefore(db, data) else PlansFor(db, data, o).accounts.known,
                          if t.Accounts? then KnownBefore(db', data) else PlansFor(db', data, o).accounts.known);
    }
  }

  lemma NoPayloads(base: Db, plans: PerTable<Plan>)
    requires plans.accounts.payload == [] && plans.apiKeys.payload == [] && plans.loginTokens.payload == []
    requires plans.sessionOwners.payload == [] && plans.usageCounters.payload == []
    ensures WithPayloads(base, Payloads(plans)) == base
    ensures Sizes(Payloads(plans)) == PerTable(0, 0, 0, 0, 0)
  {
    forall t | t in base ensures WithPayloads(base, Payloads(plans))[t] == base[t] {
      assert base[t] + [] == base[t];
    }
  }

  lemma InsertsNoneAgain(db: Db, data: Db, o: Options, t: TableName)
    requires ParksNothingAgain(db, data, o)
    ensures PlansFor(Merged(db, data, o), data, o).At(t).payload == []
  {
    TableAgain(db, data, o, t);
  }

  lemma NothingInsertedAgain(db: Db, data: Db, o: Options)
    requires ParksNothingAgain(db, data, o)
    ensures WithPayloads(Merged(db, data, o), Payloads(PlansFor(Merged(db, data, o), data, o))) == Merged(db, data, o)
    ensures Sizes(Payloads(PlansFor(Merged(db, data, o), data, o))) == PerTable(0, 0, 0, 0, 0)
  {
    InsertsNoneAgain(db, data, o, Accounts);
    InsertsNoneAgain(db, data, o, ApiKeys);
    InsertsNoneAgain(db, data, o, LoginTokens);
    InsertsNoneAgain(db, data, o, SessionOwners);
    InsertsNoneAgain(db, data, o, UsageCounters);
    NoPayloads(Merged(db, data, o), PlansFor(Merged(db, data, o), data, o));
  }

  lemma ConflictsAgainAre(db: Db, data: Db, o: Options)
    requires ParksNothingAgain(db, data, o)
    ensures PlansFor(Merged(db, data, o), data, o).accounts.conflicts ==
            StillConflicting(PlansFor(db, data, o).accounts.conflicts, Ids(RowsOf(Merged(db, data, o), Accounts)))
  {
    TableAgain(db, data, o, Accounts);
    MergedKeys(db, data, o);
  }

  /** What a merge that starts, parks nothing and plans no insert leaves and reports. */
  lemma QuietMerge(db: Db, data: Db, o: Options)
    requires Commits(db, data, o) && Base(db, data, o) == db
    requires WithPayloads(db, Payloads(PlansFor(db, data, o))) == db
    ensures Merged(db, data, o) == db && OutcomeOf(db, data, o).report == ReportOf(db, data, o)
  {
  }

  /** If the second run parks nothing, it inserts nothing and leaves the tables alone. */
  lemma Repeated(db: Db, data: Db, o: Options)
    requires ParksNothingAgain(db, data, o)
    ensures var db' := Merged(db, data, o);
            && Commits(db', data, o) && Merged(db', data, o) == db'
            && InsertsNothing(OutcomeOf(db', data, o).report)
            && OutcomeOf(db', data, o).report.displaced == []
            && OutcomeOf(db', data, o).report.conflicts ==
               StillConflicting(OutcomeOf(db, data, o).report.conflicts, Ids(RowsOf(db', Accounts)))
  {
    AgainBase(db, data, o);
    NothingInsertedAgain(db, data, o);
    ConflictsAgainAre(db, data, o);
    QuietMerge(Merged(db, data, o), data, o);
  }

  /** Without `prefer_source`, repeating a merge inserts nothing, parks nothing and
      changes nothing; it reports the same conflicts again exactly when no account
      reported as a conflict got into the target all the same. */
  lemma RepeatWithoutPreferSource(db: Db, data: Db, o: Options)
    requires Commits(db, data, o) && o.force && !o.preferSource
    ensures var db' := Merged(db, data, o);
            var once, twice := OutcomeOf(db, data, o).report, OutcomeOf(db', data, o).report;
            && Commits(db', data, o) && Merged(db', data, o) == db'
            && InsertsNothing(twice) && twice.displaced == []
            && (twice.conflicts == once.conflicts <==>
                  forall c :: c in once.conflicts ==> c.sqliteId !in Ids(RowsOf(db', Accounts)))
  {
    Repeated(db, data, o);
    StillConflictingAll(OutcomeOf(db, data, o).report.conflicts, Ids(RowsOf(Merged(db, data, o), Accounts)));
  }

  ghost predicate DistinctIds(rows: seq<Row>) { forall i, j :: 0 <= i < j < |rows| ==> rows[i].id != rows[j].id }

  /** A conflict reports a source row, at whose turn another account held its email. */
  lemma {:induction false} ConflictRow(rows: seq<Row>, table: seq<Row>, known: set<string>, c: EmailConflict)
    requires c in PlanOf(Accounts, rows, table, known).conflicts
    ensures exists i :: 0 <= i < |rows| && rows[i].id == c.sqliteId && rows[i].email == c.sqliteEmail
                        && FateOf(Accounts, PlanOf(Accounts, rows[..i], table, known), rows[i])
                           == Conflicting(c.postgresId)
  {
    var front := rows[..|rows| - 1];
    if c in PlanOf(Accounts, front, table, known).conflicts {
      ConflictRow(front, table, known, c);
      var i :| 0 <= i < |front| && front[i].id == c.sqliteId && front[i].email == c.sqliteEmail
               && FateOf(Accounts, PlanOf(Accounts, front[..i], table, known), front[i]) == Conflicting(c.postgresId);
      assert front[..i] == rows[..i] && front[i] == rows[i];
    }
  }

  lemma {:induction false} PayloadRow(rows: seq<Row>, table: seq<Row>, known: set<string>, r: Row)
    requires r in PlanOf(Accounts, rows, table, known).payload
    ensures exists i :: 0 <= i < |rows| && rows[i] == r
                        && FateOf(Accounts, PlanOf(Accounts, rows[..i], table, known), rows[i]).Inserted?
  {
    var front := rows[..|rows| - 1];
    if r in PlanOf(Accounts, front, table, known).payload {
      PayloadRow(front, table, known, r);
      var i :| 0 <= i < |front| && front[i] == r
               && FateOf(Accounts, PlanOf(Accounts, front[..i], table, known), front[i]).Inserted?;
      assert front[..i] == rows[..i] && front[i] == rows[i];
    }
  }
}
