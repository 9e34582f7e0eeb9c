/** The check that follows a merge, and when a merge passes its own
    (backend/scripts/migrate_accounts_to_postgres.py:372-422, 561-591, 617-648). */
module MergeVerification {
  import opened Text
  import opened AccountsTables
  import opened EmailParking
  import opened Displacement
  import opened MergePlan
  import opened AccountsMerge
  import opened MergeGuarantees
  import opened MergeRepeat
  import opened LiveCrowd

  lemma {:induction false} AbsentExactly(t: TableName, rows: seq<Row>, existing: set<seq<string>>, excused: set<string>)
    ensures Absent(t, rows, existing, excused) == [] <==>
            forall i :: 0 <= i < |rows| ==> Excused(t, rows[i], excused) || PrimaryKey(t, rows[i]) in existing
  {
    if rows != [] {
      AbsentExactly(t, rows[..|rows| - 1], existing, excused);
      assert forall i :: 0 <= i < |rows| - 1 ==> rows[..|rows| - 1][i] == rows[i];
    }
  }

  /** The hard part of the verification that `run_restore` makes of its own merge. */
  ghost predicate PassesVerification(db: Db, data: Db, o: Options)
    requires Commits(db, data, o)
  {
    Accounts !in MissingAfter(Merged(db, data, o), data, OutcomeOf(db, data, o).report.conflicts)
  }

  /** Where a source account must end up: in the target, or among the conflicts. */
  ghost predicate Lands(db: Db, data: Db, o: Options, id: string)
    requires Commits(db, data, o) && Accounts in Merged(db, data, o)
  {
    id in Ids(Merged(db, data, o)[Accounts]) || id in ConflictIds(OutcomeOf(db, data, o).report.conflicts)
  }

  lemma AccountsMerged(db: Db, data: Db, o: Options)
    requires Commits(db, data, o) && Accounts in data
    ensures Accounts in db && Accounts in Merged(db, data, o)
  {
    PlanAt(db, data, o, Accounts);
  }

  /** The verification passes exactly when every source account landed. */
  lemma PassesMeansLands(db: Db, data: Db, o: Options)
    requires Commits(db, data, o) && Accounts in data && Accounts in Merged(db, data, o)
    ensures PassesVerification(db, data, o)
            <==> forall i :: 0 <= i < |data[Accounts]| ==> Lands(db, data, o, data[Accounts][i].id)
  {
    var after, excused := Merged(db, data, o)[Accounts], ConflictIds(OutcomeOf(db, data, o).report.conflicts);
    forall i | 0 <= i < |data[Accounts]|
      ensures Lands(db, data, o, data[Accounts][i].id)
              <==> Excused(Accounts, data[Accounts][i], excused)
                   || PrimaryKey(Accounts, data[Accounts][i]) in PrimaryKeys(Accounts, after)
    {
      IdIsKey(after, data[Accounts][i]);
    }
    AbsentExactly(Accounts, data[Accounts], PrimaryKeys(Accounts, after), excused);
    MissingEntry(Merged(db, data, o), data, OutcomeOf(db, data, o).report.conflicts, Accounts);
  }

  // ---- which source rows the unique check drops -------------------------------------------

  /** No account with an empty id comes before another with the same normalised email. */
  ghost predicate NoEmptyTwin(rows: seq<Row>) {
    forall k, i :: 0 <= k < i < |rows| && rows[k].id == "" && rows[i].id != ""
        ==> Norm(rows[k].email) != Norm(rows[i].email)
  }

  /** A dropped row finds its email in the hands of the account "", live or just inserted. */
  lemma DroppedByEmptyId(rows: seq<Row>, table: seq<Row>, known: set<string>, i: nat)
    requires i < |rows| && FateOf(Accounts, PlanOf(Accounts, rows[..i], table, known), rows[i]).KeyTaken?
    ensures rows[i].id != ""
    ensures "" in Ids(table) || exists k :: 0 <= k < i && rows[k].id == "" && Norm(rows[k].email) == Norm(rows[i].email)
  {
    var st, row := PlanOf(Accounts, rows[..i], table, known), rows[i];
    LastExplained(Accounts, rows[..i], row, table, known);
    PlanTracks(Accounts, rows[..i], table, known);
    PlanCounts(Accounts, rows[..i], table, known);
    var grown := table + st.payload;
    OwnerHasRow(grown, Norm(row.email));
    var r :| r in grown && Norm(r.email) == Norm(row.email) && r.id == "";
    IdIsKey(grown, row);
    if r in table {
    } else {
      var k :| 0 <= k < i && rows[..i][k] == r;
      assert rows[k] == r;
    }
  }

  lemma NothingDropped(rows: seq<Row>, table: seq<Row>, known: set<string>, i: nat)
    requires i < |rows| && "" !in Ids(table) && NoEmptyTwin(rows)
    ensures !FateOf(Accounts, PlanOf(Accounts, rows[..i], table, known), rows[i]).KeyTaken?
  {
    if FateOf(Accounts, PlanOf(Accounts, rows[..i], table, known), rows[i]).KeyTaken? {
      DroppedByEmptyId(rows, table, known, i);
    }
  }

  /** A row the unique check does not drop is inserted, already there, or a conflict. */
  lemma UndroppedLands(rows: seq<Row>, table: seq<Row>, known: set<string>, i: nat)
    requires i < |rows| && !FateOf(Accounts, PlanOf(Accounts, rows[..i], table, known), rows[i]).KeyTaken?
    ensures var end := PlanOf(Accounts, rows, table, known);
            rows[i].id in Ids(table + end.payload) || rows[i].id in ConflictIds(end.conflicts)
  {
    var end := PlanOf(Accounts, rows, table, known);
    PlanTracks(Accounts, rows, table, known);
    RowsExplained(Accounts, rows, table, known, i);
    IdIsKey(table + end.payload, rows[i]);
    var fate := FateOf(Accounts, PlanOf(Accounts, rows[..i], table, known), rows[i]);
    if fate.Conflicting? {
      assert EmailConflict(rows[i].id, rows[i].email, fate.owner) in end.conflicts;
    }
  }

  lemma BaseIds(db: Db, data: Db, o: Options)
    requires Commits(db, data, o) && Accounts in db
    ensures Ids(Base(db, data, o)[Accounts]) == Ids(db[Accounts])
  {
    MovedFrame(db, data, o);
    FrameIds(db[Accounts], Base(db, data, o)[Accounts], Moved(db, data, o).displaced);
  }

  /** A source account is in the target afterwards or listed as a conflict; the
      unique-email skip drops none silently. */
  lemma AccountLands(db: Db, data: Db, o: Options, i: nat)
    requires Commits(db, data, o) && Accounts in data && Accounts in Merged(db, data, o) && i < |data[Accounts]|
    requires "" !in Ids(RowsOf(db, Accounts)) && NoEmptyTwin(data[Accounts])
    ensures Lands(db, data, o, data[Accounts][i].id)
  {
    var rows, base, known := data[Accounts], Base(db, data, o)[Accounts], KnownBefore(db, data);
    BaseIds(db, data, o);
    PlanAt(db, data, o, Accounts);
    NothingDropped(rows, base, known, i);
    UndroppedLands(rows, base, known, i);
  }

  /** A committed merge always passes its own hard verification. */
  lemma PassesItsVerification(db: Db, data: Db, o: Options)
    requires Commits(db, data, o)
    requires "" !in Ids(RowsOf(db, Accounts)) && NoEmptyTwin(RowsOf(data, Accounts))
    ensures PassesVerification(db, data, o)
  {
    if Accounts in data {
      AccountsMerged(db, data, o);
      forall i | 0 <= i < |data[Accounts]| ensures Lands(db, data, o, data[Accounts][i].id) {
        AccountLands(db, data, o, i);
      }
      PassesMeansLands(db, data, o);
    } else {
      MissingEntry(Merged(db, data, o), data, OutcomeOf(db, data, o).report.conflicts, Accounts);
    }
  }

  // ---- exactly which targets and which sources ---------------------------------------------

  /** An account with an empty id counts as "no owner" of its email. For a target: every
      merge of a source that does not bring the same trouble passes exactly when the target
      holds no such account. */
  lemma VerificationExactly(db: Db)
    requires SoundDb(db) && Accounts in db
    ensures "" !in Ids(db[Accounts]) <==>
            forall data: Db, o: Options ::
              Commits(db, data, o) && NoEmptyTwin(RowsOf(data, Accounts)) ==> PassesVerification(db, data, o)
  {
    if "" !in Ids(db[Accounts]) {
      forall data: Db, o: Options | Commits(db, data, o) && NoEmptyTwin(RowsOf(data, Accounts))
        ensures PassesVerification(db, data, o)
      {
        PassesItsVerification(db, data, o);
      }
    } else {
      var k :| 0 <= k < |db[Accounts]| && db[Accounts][k].id == "";
      var data, o := DroppedAccount(db, k);
      assert !PassesVerification(db, data, o);
    }
  }

  /** For a source whose ids are distinct: its merge into every target without such an
      account passes exactly when no empty id comes before a row with the same email. */
  lemma SourceVerificationExactly(data: Db)
    requires Accounts in data && DistinctIds(data[Accounts])
    ensures NoEmptyTwin(data[Accounts]) <==>
            forall db: Db, o: Options ::
              Commits(db, data, o) && "" !in Ids(RowsOf(db, Accounts)) ==> PassesVerification(db, data, o)
  {
    if NoEmptyTwin(data[Accounts]) {
      forall db: Db, o: Options | Commits(db, data, o) && "" !in Ids(RowsOf(db, Accounts))
        ensures PassesVerification(db, data, o)
      {
        PassesItsVerification(db, data, o);
      }
    } else {
      var rows := data[Accounts];
      var k, i :| 0 <= k < i < |rows| && rows[k].id == "" && rows[i].id != ""
          && Norm(rows[k].email) == Norm(rows[i].email);
      var live, o := TwinDropped(data, k, i);
      assert !PassesVerification(TargetFor(data, live), data, o);
    }
  }

  // ---- a target's empty id ------------------------------------------------------------------

  /** A new account whose email the account "" holds is skipped without a word. */
  lemma {:induction false} DroppedSilently(live: seq<Row>, k: nat, row: Row)
    requires Sound(Accounts, live) && k < |live| && live[k].id == ""
    requires row.id !in Ids(live) && row.email == live[k].email
    ensures var plan := PlanOf(Accounts, [row], live, Ids(live)); plan.payload == [] && plan.conflicts == []
  {
    OwnersExact(live, k);
    OwnersKeys(live);
    IdIsKey(live, row);
    var start := StartPlan(Accounts, live, Ids(live));
    assert FateOf(Accounts, start, row) == KeyTaken;
    assert [row][..0] == [] && PlanRows(Accounts, start, []) == start;
    assert PlanOf(Accounts, [row], live, Ids(live)) == PlanStep(Accounts, start, row);
  }

  lemma DroppedAccount(db: Db, k: nat) returns (data: Db, o: Options)
    requires SoundDb(db) && Accounts in db && k < |db[Accounts]| && db[Accounts][k].id == ""
    ensures Commits(db, data, o) && NoEmptyTwin(RowsOf(data, Accounts)) && !PassesVerification(db, data, o)
  {
    var live, unused := db[Accounts], Parked("x", Ids(db[Accounts]));
    var row := live[k].(id := unused);
    data, o := map[Accounts := [row]], Options(true, false, false);
    DroppedSilently(live, k, row);
    assert Base(db, data, o) == db;
    PlanAt(db, data, o, Accounts);
    assert Merged(db, data, o)[Accounts] == live + [] == live;
    assert data[Accounts][0] == row && OutcomeOf(db, data, o).report.conflicts == [];
    assert !Lands(db, data, o, row.id);
    PassesMeansLands(db, data, o);
  }

  // ---- a source's empty id --------------------------------------------------------------------

  /** With distinct ids, a row the check drops is nowhere to be found afterwards. */
  lemma DroppedIsAbsent(rows: seq<Row>, table: seq<Row>, known: set<string>, i: nat)
    requires i < |rows| && DistinctIds(rows) && rows[i].id !in Ids(table)
    requires FateOf(Accounts, PlanOf(Accounts, rows[..i], table, known), rows[i]).KeyTaken?
    ensures var end := PlanOf(Accounts, rows, table, known);
            rows[i].id !in Ids(table + end.payload) && rows[i].id !in ConflictIds(end.conflicts)
  {
    var end := PlanOf(Accounts, rows, table, known);
    KeysConcat(Accounts, table, end.payload);
    forall r | r in end.payload ensures r.id != rows[i].id {
      PayloadRow(rows, table, known, r);
      var j :| 0 <= j < |rows| && rows[j] == r
               && FateOf(Accounts, PlanOf(Accounts, rows[..j], table, known), rows[j]).Inserted?;
      assert i != j;
    }
    forall c | c in end.conflicts ensures c.sqliteId != rows[i].id {
      ConflictRow(rows, table, known, c);
      var j :| 0 <= j < |rows| && rows[j].id == c.sqliteId
               && FateOf(Accounts, PlanOf(Accounts, rows[..j], table, known), rows[j]) == Conflicting(c.postgresId);
      assert i != j;
    }
  }

  /** A target that has all accounts before the empty id, but not its email, takes the
      empty id in and then drops its twin. */
  lemma TwinFate(rows: seq<Row>, live: seq<Row>, k: nat, i: nat)
    requires k < i < |rows| && DistinctIds(rows) && rows[k].id == "" && Norm(rows[k].email) == Norm(rows[i].email)
    requires Ids(live) == Ids(rows[..k]) && Norm(rows[k].email) !in UniqueKeys(Accounts, live)
    ensures rows[i].id !in Ids(live)
    ensures FateOf(Accounts, PlanOf(Accounts, rows[..i], live, Ids(live)), rows[i]).KeyTaken?
  {
    var known, e := Ids(live), Norm(rows[k].email);
    AllThere(rows[..k], live);
    var st := PlanOf(Accounts, rows[..k], live, known);
    EarlierIds(rows, k, k);
    EarlierIds(rows, k, i);
    IdIsKey(live, rows[k]);
    OwnersKeys(live);
    assert FateOf(Accounts, st, rows[k]).Inserted?;
    assert rows[..k + 1][..k] == rows[..k];
    OwnerStays(rows, live, known, k + 1, i, e);
    TakenEmails(rows, live, known, i);
    StillAbsent(rows, live, known, i);
  }

  lemma EarlierIds(rows: seq<Row>, k: nat, i: nat)
    requires k <= i < |rows| && DistinctIds(rows)
    ensures rows[i].id !in Ids(rows[..k])
  {
    forall r | r in rows[..k] ensures r.id != rows[i].id {
      var j :| 0 <= j < k && rows[..k][j] == r;
      assert rows[j] == r;
    }
  }

  /** Rows that are there already change nothing in the plan. */
  lemma AllThere(rows: seq<Row>, live: seq<Row>)
    requires Ids(rows) <= Ids(live)
    ensures SameSets(PlanOf(Accounts, rows, live, Ids(live)), StartPlan(Accounts, live, Ids(live)))
  {
    forall r | r in rows ensures PrimaryKey(Accounts, r) in PrimaryKeys(Accounts, live) {
      assert r.id in Ids(rows);
      IdIsKey(live, r);
    }
    NoneGetsIn(StartPlan(Accounts, live, Ids(live)), rows);
  }

  lemma StillAbsent(rows: seq<Row>, live: seq<Row>, known: set<string>, i: nat)
    requires i < |rows| && DistinctIds(rows) && rows[i].id !in Ids(live)
    ensures PrimaryKey(Accounts, rows[i]) !in PlanOf(Accounts, rows[..i], live, known).pks
  {
    var st := PlanOf(Accounts, rows[..i], live, known);
    PlanTracks(Accounts, rows[..i], live, known);
    PlanCounts(Accounts, rows[..i], live, known);
    KeysConcat(Accounts, live, st.payload);
    EarlierIds(rows, i, i);
    IdIsKey(live + st.payload, rows[i]);
    forall r | r in st.payload ensures r.id != rows[i].id {
      assert r in rows[..i];
    }
  }

  /** Merged into this table, that row does not land. */
  lemma TwinDoesNotLand(db: Db, data: Db, o: Options, k: nat, i: nat)
    requires Accounts in data && k < i < |data[Accounts]| && DistinctIds(data[Accounts])
    requires data[Accounts][k].id == "" && Norm(data[Accounts][k].email) == Norm(data[Accounts][i].email)
    requires Commits(db, data, o) && !o.preferSource && Accounts in db
    requires db[Accounts] == Before(data[Accounts], k, {Norm(data[Accounts][k].email)})
    ensures !PassesVerification(db, data, o)
  {
    var rows, live := data[Accounts], db[Accounts];
    BeforeIs(rows, k, {Norm(rows[k].email)});
    TwinFate(rows, live, k, i);
    DroppedIsAbsent(rows, live, Ids(live), i);
    PlanAt(db, data, o, Accounts);
    assert Base(db, data, o)[Accounts] == live;
    assert !Lands(db, data, o, rows[i].id);
    PassesMeansLands(db, data, o);
  }

  /** A target without an empty id that drops the twin. */
  lemma TwinDropped(data: Db, k: nat, i: nat) returns (live: seq<Row>, o: Options)
    requires Accounts in data && k < i < |data[Accounts]| && DistinctIds(data[Accounts])
    requires data[Accounts][k].id == "" && Norm(data[Accounts][k].email) == Norm(data[Accounts][i].email)
    ensures Commits(TargetFor(data, live), data, o) && SoundDb(TargetFor(data, live)) && "" !in Ids(live)
    ensures !PassesVerification(TargetFor(data, live), data, o)
    ensures k == 0 ==> live == []
  {
    var avoid := {Norm(data[Accounts][k].email)};
    BeforeIs(data[Accounts], k, avoid);
    EarlierIds(data[Accounts], k, k);
    live, o := Before(data[Accounts], k, avoid), Options(true, false, false);
    TargetTakes(data, live, o);
    TwinDoesNotLand(TargetFor(data, live), data, o, k, i);
  }

  /** The smallest such input: into an empty table, an account without an id and one with,
      whose addresses differ only in case. */
  const TWINS: seq<Row> := [Someone("", "a"), Someone("b", "A")]

  lemma TwinsAre()
    ensures |TWINS| == 2 && TWINS[0].id == "" && Enforced(Accounts, TWINS) && DistinctIds(TWINS)
    ensures Norm(TWINS[0].email) == Norm(TWINS[1].email)
  {
    NormFixed("a");
    assert Lower("A") == "a";
    assert PrimaryKey(Accounts, TWINS[0])[0] != PrimaryKey(Accounts, TWINS[1])[0];
    assert TWINS[0].email[0] != TWINS[1].email[0];
  }

  /** Merged into an empty table, a source that begins with such a pair fails. */
  lemma FirstTwinDropped(db: Db, data: Db) returns (o: Options)
    requires Accounts in data && |data[Accounts]| >= 2 && DistinctIds(data[Accounts])
    requires data[Accounts][0].id == "" && Norm(data[Accounts][0].email) == Norm(data[Accounts][1].email)
    requires db == map t | t in data :: []
    ensures Commits(db, data, o) && !PassesVerification(db, data, o)
  {
    var live: seq<Row>;
    live, o := TwinDropped(data, 0, 1);
    assert TargetFor(data, live) == db;
  }

  lemma TwinInput(db: Db, data: Db) returns (o: Options)
    requires db == map[Accounts := []] && data == map[Accounts := TWINS]
    ensures Enforced(Accounts, TWINS) && Commits(db, data, o) && !PassesVerification(db, data, o)
  {
    TwinsAre();
    o := FirstTwinDropped(db, data);
  }

  // ---- the lists of emails ---------------------------------------------------------

  function Emails(rows: seq<Row>): seq<string> { seq(|rows|, i requires 0 <= i < |rows| => rows[i].email) }

  function ConflictEmails(cs: seq<EmailConflict>): seq<string> {
    seq(|cs|, i requires 0 <= i < |cs| => cs[i].sqliteEmail)
  }

  function Reported(p: Plan): multiset<string> {
    multiset(p.migrated) + multiset(p.skippedEmails) + multiset(ConflictEmails(p.conflicts))
  }

  /** The lists name these rows' emails, the migrated ones in the order of the payload. */
  ghost predicate Lists(p: Plan, rows: seq<Row>) {
    p.migrated == Emails(p.payload) && Reported(p) == multiset(Emails(rows))
  }

  lemma EmailsAppend(rows: seq<Row>, row: Row)
    ensures Emails(rows + [row]) == Emails(rows) + [row.email]
  {
  }

  lemma ListsStep(st: Plan, row: Row, rows: seq<Row>)
    requires Lists(st, rows) && !FateOf(Accounts, st, row).KeyTaken?
    ensures Lists(PlanStep(Accounts, st, row), rows + [row])
  {
    EmailsAppend(rows, row);
    EmailsAppend(st.payload, row);
    match FateOf(Accounts, st, row)
    case Conflicting(owner) =>
      var c := EmailConflict(row.id, row.email, owner);
      assert ConflictEmails(st.conflicts + [c]) == ConflictEmails(st.conflicts) + [row.email];
    case _ =>
  }

  lemma NoEmptyTwinFront(front: seq<Row>, row: Row)
    requires NoEmptyTwin(front + [row])
    ensures NoEmptyTwin(front)
  {
    assert forall i :: 0 <= i < |front| ==> (front + [row])[i] == front[i];
  }

  /** The planner's lists name each account row once. */
  lemma {:induction false} ListsExactly(rows: seq<Row>, table: seq<Row>, known: set<string>)
    requires "" !in Ids(table) && NoEmptyTwin(rows)
    ensures Lists(PlanOf(Accounts, rows, table, known), rows)
  {
    if rows == [] {
      assert Emails([]) == [] && PlanOf(Accounts, [], table, known) == StartPlan(Accounts, table, known);
    } else {
      var front, row := rows[..|rows| - 1], rows[|rows| - 1];
      assert rows == front + [row];
      NoEmptyTwinFront(front, row);
      ListsExactly(front, table, known);
      NothingDropped(rows, table, known, |front|);
      PlanOfLast(Accounts, front, row, table, known);
      ListsStep(PlanOf(Accounts, front, table, known), row, front);
    }
  }

  lemma {:induction false} FilledKeeps(emails: seq<string>)
    ensures multiset(Filled(emails)) == multiset(emails)["" := 0]
  {
    if emails != [] {
      var front, last := emails[..|emails| - 1], emails[|emails| - 1];
      FilledKeeps(front);
      assert emails == front + [last];
    }
  }

  /** Leaving the empty emails out of the lists leaves out the same of the rows. */
  lemma {:induction false} FilledReported(p: Plan, emails: seq<string>)
    requires Reported(p) == multiset(emails)
    ensures multiset(Filled(p.migrated) + Filled(p.skippedEmails) + Filled(ConflictEmails(p.conflicts)))
            == multiset(Filled(emails))
  {
    FilledKeeps(p.migrated);
    FilledKeeps(p.skippedEmails);
    FilledKeeps(ConflictEmails(p.conflicts));
    FilledKeeps(emails);
  }

  /** Every email that a source account has is reported exactly once: as migrated, as skipped, or
      in a conflict; and the migrated ones are those of the inserted rows, in order. */
  lemma EveryAccountReported(db: Db, data: Db, o: Options)
    requires Commits(db, data, o) && Accounts in data
    requires "" !in Ids(RowsOf(db, Accounts)) && NoEmptyTwin(data[Accounts])
    ensures var r := OutcomeOf(db, data, o).report;
            && multiset(r.migrated + r.skippedEmails + Filled(ConflictEmails(r.conflicts)))
               == multiset(Filled(Emails(data[Accounts])))
            && r.migrated == Filled(Emails(PlansFor(db, data, o).accounts.payload))
  {
    var rows, base, known := data[Accounts], RowsOf(Base(db, data, o), Accounts), KnownBefore(db, data);
    AccountsMerged(db, data, o);
    BaseIds(db, data, o);
    PlanAt(db, data, o, Accounts);
    ListsExactly(rows, base, known);
    FilledReported(PlansFor(db, data, o).accounts, Emails(rows));
  }
}
