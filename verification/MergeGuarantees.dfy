/** What a merge guarantees, for every target and every source
    (backend/scripts/migrate_accounts_to_postgres.py:462-648). */
module MergeGuarantees {
  import opened AccountsTables
  import opened Displacement
  import opened MergePlan
  import opened AccountsMerge

  ghost predicate Commits(db: Db, data: Db, o: Options) { OutcomeOf(db, data, o).Done? && !o.dryRun }

  /** Parking is only asked of ids without upper-case letters, as the store mints them. */
  ghost predicate ParkingSafe(db: Db, data: Db, o: Options) {
    o.preferSource && !o.dryRun ==> LowerInWay(RowsOf(db, Accounts), RowsOf(data, Accounts))
  }

  lemma PlanAt(db: Db, data: Db, o: Options, t: TableName)
    ensures var known := if t.Accounts? then KnownBefore(db, data) else PlansFor(db, data, o).accounts.known;
            && PlansFor(db, data, o).At(t) == PlanOf(t, RowsOf(data, t), RowsOf(Base(db, data, o), t), known)
            && Sizes(Payloads(PlansFor(db, data, o))).At(t) == |PlansFor(db, data, o).At(t).payload|
            && Skips(PlansFor(db, data, o)).At(t) == PlansFor(db, data, o).At(t).skipped
            && (Commits(db, data, o) && t in db ==>
                  Merged(db, data, o)[t] == Base(db, data, o)[t] + PlansFor(db, data, o).At(t).payload)
  {
    PlansAt(Base(db, data, o), data, KnownBefore(db, data), t);
  }

  lemma BaseSound(db: Db, data: Db, o: Options)
    requires SoundDb(db) && ParkingSafe(db, data, o)
    ensures SoundDb(Base(db, data, o)) && !Moved(db, data, o).failed
  {
    if Accounts in db && Accounts in data && o.preferSource {
      if o.dryRun {
        MoveFrame(db[Accounts], data[Accounts], true);
      } else {
        MoveRowsAccurate(db[Accounts], data[Accounts]);
      }
    } else if Accounts in data && o.preferSource {
      MoveFrame([], data[Accounts], o.dryRun);
      NothingToMove(data[Accounts], o.dryRun);
    }
  }

  /** With no live accounts there is nothing to move. */
  lemma {:induction false} NothingToMove(rows: seq<Row>, dryRun: bool)
    ensures MoveRows(StartMoving([]), rows, dryRun) == StartMoving([])
  {
    if rows != [] {
      NothingToMove(rows[..|rows| - 1], dryRun);
    }
  }

  /** A merge is never refused by a constraint and keeps every one of them: primary
      keys, key and token hashes, and emails as compared after normalisation. */
  lemma KeepsConstraints(db: Db, data: Db, o: Options)
    requires SoundDb(db) && ParkingSafe(db, data, o)
    ensures !OutcomeOf(db, data, o).ConstraintViolation?
    ensures SoundDb(Merged(db, data, o))
  {
    BaseSound(db, data, o);
    forall t | t in Merged(db, data, o) ensures Sound(t, Merged(db, data, o)[t]) {
      if Commits(db, data, o) {
        PlanAt(db, data, o, t);
        PlanKeepsConstraints(t, RowsOf(data, t), Base(db, data, o)[t],
                             if t.Accounts? then KnownBefore(db, data) else PlansFor(db, data, o).accounts.known);
      }
    }
  }

  lemma MovedFrame(db: Db, data: Db, o: Options)
    ensures OnlyEmailsMoved(RowsOf(db, Accounts), Moved(db, data, o).accounts, Moved(db, data, o).displaced)
    ensures o.dryRun || !o.preferSource
            ==> Moved(db, data, o).accounts == RowsOf(db, Accounts) && !Moved(db, data, o).failed
    ensures !o.preferSource ==> Moved(db, data, o).displaced == []
  {
    MoveFrame(RowsOf(db, Accounts), RowsOf(data, Accounts), o.dryRun);
  }

  /** The table a merge starts its inserts from: as many rows as before, and but for the
      accounts the very same. */
  lemma BaseFrame(db: Db, data: Db, o: Options, t: TableName)
    requires t in db
    ensures t in Base(db, data, o) && |Base(db, data, o)[t]| == |db[t]|
    ensures !t.Accounts? || !o.preferSource ==> Base(db, data, o)[t] == db[t]
    ensures t.Accounts? ==> OnlyEmailsMoved(db[t], Base(db, data, o)[t], Moved(db, data, o).displaced)
  {
    MovedFrame(db, data, o);
  }

  lemma PayloadAppended(base: seq<Row>, payload: seq<Row>, rows: seq<Row>)
    requires forall r :: r in payload ==> r in rows
    ensures |base + payload| == |base| + |payload| && (base + payload)[..|base|] == base
    ensures forall i :: |base| <= i < |base + payload| ==> (base + payload)[i] in rows
  {
    forall i | |base| <= i < |base + payload| ensures (base + payload)[i] in rows {
      assert (base + payload)[i] == payload[i - |base|];
    }
  }

  /** What a committed merge makes of one table. */
  lemma TableMerged(db: Db, data: Db, o: Options, t: TableName)
    requires Commits(db, data, o) && t in db
    ensures t in Base(db, data, o) && t in Merged(db, data, o)
    ensures Merged(db, data, o)[t] == Base(db, data, o)[t] + PlansFor(db, data, o).At(t).payload
  {
    PlanAt(db, data, o, t);
  }

  lemma RowsCounted(db: Db, data: Db, o: Options, t: TableName)
    requires OutcomeOf(db, data, o).Done?
    ensures var r := OutcomeOf(db, data, o).report;
            r.inserted.At(t) + r.skipped.At(t) == |RowsOf(data, t)|
                && r.inserted.At(t) == |PlansFor(db, data, o).At(t).payload|
    ensures forall r :: r in PlansFor(db, data, o).At(t).payload ==> r in RowsOf(data, t)
  {
    PlanAt(db, data, o, t);
    PlanCounts(t, RowsOf(data, t), RowsOf(Base(db, data, o), t),
               if t.Accounts? then KnownBefore(db, data) else PlansFor(db, data, o).accounts.known);
  }

  /** Source rows are all accounted for, the target grows by exactly what was
      inserted, and what was inserted comes from the source. */
  lemma EveryRowAccountedFor(db: Db, data: Db, o: Options, t: TableName)
    requires OutcomeOf(db, data, o).Done?
    ensures var r := OutcomeOf(db, data, o).report;
            && r.inserted.At(t) + r.skipped.At(t) == |RowsOf(data, t)|
            && (!o.dryRun && t in db ==>
                  && |Merged(db, data, o)[t]| == |db[t]| + r.inserted.At(t)
                  && forall i :: |db[t]| <= i < |Merged(db, data, o)[t]|
                        ==> Merged(db, data, o)[t][i] in RowsOf(data, t))
  {
    RowsCounted(db, data, o, t);
    if !o.dryRun && t in db {
      BaseFrame(db, data, o, t);
      TableMerged(db, data, o, t);
      PayloadAppended(Base(db, data, o)[t], PlansFor(db, data, o).At(t).payload, RowsOf(data, t));
    }
  }

  /** Live rows stay as they are, in every table; only under `prefer_source` may the
      email of an account listed as displaced change, and nothing else of it. A
      refused merge and a dry run change nothing at all. */
  lemma LiveRowsStay(db: Db, data: Db, o: Options, t: TableName)
    requires t in db
    ensures !Commits(db, data, o) ==> Merged(db, data, o) == db
    ensures Commits(db, data, o) && (!t.Accounts? || !o.preferSource) ==> db[t] <= Merged(db, data, o)[t]
    ensures Commits(db, data, o) && t.Accounts? ==>
              |db[t]| <= |Merged(db, data, o)[t]| &&
              OnlyEmailsMoved(db[t], Merged(db, data, o)[t][..|db[t]|], OutcomeOf(db, data, o).report.displaced)
  {
    if Commits(db, data, o) {
      BaseFrame(db, data, o, t);
      TableMerged(db, data, o, t);
      RowsCounted(db, data, o, t);
      PayloadAppended(Base(db, data, o)[t], PlansFor(db, data, o).At(t).payload, RowsOf(data, t));
    } else {
      NothingWritten(db, data, o);
    }
  }

  lemma NothingWritten(db: Db, data: Db, o: Options)
    requires !Commits(db, data, o)
    ensures Merged(db, data, o) == db
  {
    MovedFrame(db, data, o);
    assert Accounts in db ==> db[Accounts := db[Accounts]] == db;
  }

  // ---- child rows ------------------------------------------------------------

  lemma AccountsKnown(db: Db, data: Db, o: Options)
    requires Commits(db, data, o) && Accounts in db
    ensures PlansFor(db, data, o).accounts.known <= Ids(Merged(db, data, o)[Accounts])
    ensures Accounts in data ==> PlansFor(db, data, o).accounts.known == Ids(Merged(db, data, o)[Accounts])
  {
    var base := Base(db, data, o)[Accounts];
    MovedFrame(db, data, o);
    FrameIds(db[Accounts], base, Moved(db, data, o).displaced);
    PlanAt(db, data, o, Accounts);
    PlanTracks(Accounts, RowsOf(data, Accounts), base, KnownBefore(db, data));
    KeysConcat(Accounts, base, PlansFor(db, data, o).accounts.payload);
  }

  /** Every inserted child row belongs to an account of the target, or names no
      account; so all of them have their account exactly when none names nobody. */
  lemma ChildRowsHaveAccounts(db: Db, data: Db, o: Options, t: TableName)
    requires Commits(db, data, o) && Accounts in db && t in db && !t.Accounts?
    ensures |db[t]| <= |Merged(db, data, o)[t]|
    ensures var rows, ids := Merged(db, data, o)[t][|db[t]|..], Ids(Merged(db, data, o)[Accounts]);
            && (forall r :: r in rows ==> r.accountId == "" || r.accountId in ids)
            && ((forall r :: r in rows ==> r.accountId in ids)
                <==> (forall r :: r in rows && r.accountId == "" ==> "" in ids))
  {
    PlanAt(db, data, o, t);
    AccountsKnown(db, data, o);
    var known := PlansFor(db, data, o).accounts.known;
    PayloadAccountsKnown(t, RowsOf(data, t), RowsOf(Base(db, data, o), t), known);
    TableMerged(db, data, o, t);
    BaseFrame(db, data, o, t);
    assert Merged(db, data, o)[t][|db[t]|..] == PlansFor(db, data, o).At(t).payload;
  }

  ghost predicate NoEmptyId(rows: seq<Row>) { forall r :: r in rows ==> r.id != "" }

  /** A merge makes up no account id. */
  lemma MergedIds(db: Db, data: Db, o: Options)
    requires Commits(db, data, o) && Accounts in db
    ensures Ids(Merged(db, data, o)[Accounts]) <= Ids(db[Accounts]) + Ids(RowsOf(data, Accounts))
  {
    var base := Base(db, data, o)[Accounts];
    MovedFrame(db, data, o);
    FrameIds(db[Accounts], base, Moved(db, data, o).displaced);
    PlanAt(db, data, o, Accounts);
    var payload := PlansFor(db, data, o).accounts.payload;
    PlanCounts(Accounts, RowsOf(data, Accounts), base, KnownBefore(db, data));
    KeysConcat(Accounts, base, payload);
    assert forall r :: r in payload ==> r.id in Ids(RowsOf(data, Accounts));
  }

  lemma IdIsKey(rows: seq<Row>, row: Row)
    ensures row.id in Ids(rows) <==> PrimaryKey(Accounts, row) in PrimaryKeys(Accounts, rows)
  {
    if row.id in Ids(rows) {
      var r :| r in rows && r.id == row.id;
      assert PrimaryKey(Accounts, r) == PrimaryKey(Accounts, row);
    }
    if PrimaryKey(Accounts, row) in PrimaryKeys(Accounts, rows) {
      var r :| r in rows && PrimaryKey(Accounts, r) == PrimaryKey(Accounts, row);
      assert r.id == [r.id][0] == [row.id][0];
    }
  }

  // ---- dry run ------------------------------------------------------------------

  lemma {:induction false} NothingParked(accounts: seq<Row>, rows: seq<Row>)
    requires MoveRows(StartMoving(accounts), rows, true).displaced == []
    ensures forall dryRun :: MoveRows(StartMoving(accounts), rows, dryRun) == StartMoving(accounts)
  {
    if rows != [] {
      NothingParked(accounts, rows[..|rows| - 1]);
    }
  }

  ghost predicate SamePlan(a: Report, b: Report) {
    && a.inserted == b.inserted && a.skipped == b.skipped && a.conflicts == b.conflicts
    && a.migrated == b.migrated && a.skippedEmails == b.skippedEmails && a.displaced == b.displaced
    && a.before == b.before
  }

  /** With nothing to park, dry or not, every table is planned from its live rows. */
  lemma SameBase(db: Db, data: Db, o: Options)
    requires !o.dryRun
    requires !o.preferSource || Moved(db, data, o.(dryRun := true)).displaced == []
    ensures Moved(db, data, o.(dryRun := true)) == Moved(db, data, o)
    ensures Base(db, data, o.(dryRun := true)) == Base(db, data, o) && !Moved(db, data, o).failed
  {
    MovedFrame(db, data, o.(dryRun := true));
    if o.preferSource && Accounts in data {
      NothingParked(RowsOf(db, Accounts), data[Accounts]);
    }
  }

  lemma SameReport(db: Db, data: Db, o: Options)
    requires Moved(db, data, o.(dryRun := true)) == Moved(db, data, o)
    requires Base(db, data, o.(dryRun := true)) == Base(db, data, o)
    ensures SamePlan(ReportOf(db, data, o.(dryRun := true)), ReportOf(db, data, o))
  {
    assert PlansFor(db, data, o.(dryRun := true)) == PlansFor(db, data, o);
  }

  /** A dry run writes nothing and reports what the real run then does, provided it
      has no address to park. */
  lemma DryRunAgrees(db: Db, data: Db, o: Options)
    requires !o.dryRun
    requires !o.preferSource || Moved(db, data, o.(dryRun := true)).displaced == []
    ensures var dry, wet := OutcomeOf(db, data, o.(dryRun := true)), OutcomeOf(db, data, o);
            && Merged(db, data, o.(dryRun := true)) == db
            && (dry.Done? <==> wet.Done?)
            && (dry.Done? ==> SamePlan(dry.report, wet.report))
            && (!dry.Done? ==> dry == wet)
  {
    NothingWritten(db, data, o.(dryRun := true));
    SameBase(db, data, o);
    SameReport(db, data, o);
  }
}
