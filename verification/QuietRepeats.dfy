/** Which sources, merged again with `prefer_source`, park nothing and change nothing
    (backend/scripts/migrate_accounts_to_postgres.py:301-346, 355-424, 495-529). */
module QuietRepeats {
  import opened Text
  import opened AccountsTables
  import opened Displacement
  import opened MergePlan
  import opened AccountsMerge
  import opened MergeGuarantees
  import opened MergeRepeat
  import opened ParkingTruth

  /** Nothing that the merge of such a source can displace clashes with an address it asks for. */
  ghost predicate ParkingHarmless(db: Db, data: Db, o: Options) {
    ParkingSafe(db, data, o) || NoUpperAsked(RowsOf(data, Accounts))
  }

  /** The accounts table a merge that prefers the source starts its inserts from. */
  lemma BaseMoved(db: Db, data: Db, o: Options)
    requires Commits(db, data, o) && o.preferSource && Accounts in data
    ensures Accounts in db && Accounts in Base(db, data, o)
    ensures var st := MoveRows(StartMoving(db[Accounts]), data[Accounts], false);
            Base(db, data, o)[Accounts] == st.accounts && !st.failed
  {
  }

  lemma NoClashAmong(db: Db, data: Db, o: Options)
    requires SoundDb(db) && ParkingHarmless(db, data, o) && !o.dryRun && o.preferSource && Accounts in db
             && Accounts in data
    ensures Sound(Accounts, db[Accounts]) && NoClash(db[Accounts], data[Accounts])
  {
  }

  /** When the merge starts its inserts, nobody is in the way of a source row. */
  lemma NothingInTheBase(db: Db, data: Db, o: Options, i: nat)
    requires SoundDb(db) && ParkingHarmless(db, data, o) && Commits(db, data, o) && o.preferSource
    requires Accounts in data && i < |data[Accounts]| && QuietSource(data[Accounts])
    ensures Accounts in db && Accounts in Base(db, data, o)
    ensures var base, row := Base(db, data, o)[Accounts], data[Accounts][i];
            InTheWay(Owners(base), row) == "" && (Named(row) ==> AtMostOne(base, Norm(row.email)))
  {
    BaseMoved(db, data, o);
    NoClashAmong(db, data, o);
    BaseClear(db[Accounts], data[Accounts], i);
  }

  /** After a merge that prefers such a source, no source account's address is in the hands
      of another account. */
  lemma NothingInTheWay(db: Db, data: Db, o: Options, i: nat)
    requires SoundDb(db) && ParkingHarmless(db, data, o) && Commits(db, data, o) && o.preferSource
    requires Accounts in data && i < |data[Accounts]| && QuietSource(data[Accounts])
    ensures Accounts in db && Accounts in Base(db, data, o) && Accounts in Merged(db, data, o)
    ensures InTheWay(Owners(Base(db, data, o)[Accounts]), data[Accounts][i]) == ""
    ensures InTheWay(Owners(Merged(db, data, o)[Accounts]), data[Accounts][i]) == ""
  {
    NothingInTheBase(db, data, o, i);
    TableMerged(db, data, o, Accounts);
    RowsCounted(db, data, o, Accounts);
    HolderAfter(Base(db, data, o)[Accounts], PlansFor(db, data, o).accounts.payload, data[Accounts], i);
  }

  lemma AskedByOne(rows: seq<Row>, i: nat, row: Row)
    requires i < |rows| && OneIdPerAddress(rows) && Named(rows[i]) && row in rows
             && Norm(row.email) == Norm(rows[i].email)
    ensures row.id == rows[i].id || row.id == ""
  {
    var j :| 0 <= j < |rows| && rows[j] == row;
  }

  lemma {:induction false} HeldSince(base: seq<Row>, k: nat, e: string, row: Row)
    requires k < |base| && Norm(base[k].email) == e == Norm(row.email) && AtMostOne(base, e) && Named(row)
    requires InTheWay(Owners(base), row) == ""
    ensures base[k].id == "" || base[k].id == row.id
  {
    HolderAt(base, k, e);
  }

  lemma {:induction false} HolderAfter(base: seq<Row>, payload: seq<Row>, rows: seq<Row>, i: nat)
    requires i < |rows| && (Named(rows[i]) ==> AtMostOne(base, Norm(rows[i].email)))
    requires forall r :: r in payload ==> r in rows
    requires OneIdPerAddress(rows) && InTheWay(Owners(base), rows[i]) == ""
    ensures InTheWay(Owners(base + payload), rows[i]) == ""
  {
    var email := Norm(rows[i].email);
    if Named(rows[i]) && email in Owners(base + payload) {
      OwnerHasRow(base + payload, email);
      var r :| r in base + payload && Norm(r.email) == email && r.id == Owners(base + payload)[email];
      if r in payload {
        AskedByOne(rows, i, r);
      } else {
        var k :| 0 <= k < |base| && base[k] == r;
        HeldSince(base, k, email, rows[i]);
      }
    }
  }

  // ---- the repeat ----------------------------------------------------------------------------

  /** The merge made once more inserts nothing, parks nothing and changes nothing. */
  ghost predicate QuietAgain(db: Db, data: Db, o: Options)
    requires Commits(db, data, o)
  {
    var db' := Merged(db, data, o);
    && Commits(db', data, o) && Merged(db', data, o) == db'
    && InsertsNothing(OutcomeOf(db', data, o).report) && OutcomeOf(db', data, o).report.displaced == []
  }

  lemma ParkedOnce(db: Db, data: Db, o: Options)
    requires SoundDb(db) && ParkingHarmless(db, data, o) && Commits(db, data, o) && o.force && o.preferSource
    requires QuietSource(RowsOf(data, Accounts))
    ensures ParksNothingAgain(db, data, o)
  {
    if Accounts in data {
      var rows := data[Accounts];
      forall i | 0 <= i < |rows|
        ensures Accounts in Merged(db, data, o) && InTheWay(Owners(Merged(db, data, o)[Accounts]), rows[i]) == ""
      {
        NothingInTheWay(db, data, o, i);
      }
      NothingToPark(StartMoving(RowsOf(Merged(db, data, o), Accounts)), rows, false);
    }
  }

  /** With `prefer_source`, repeating the merge of such a source inserts nothing, parks
      nothing and changes nothing. */
  lemma RepeatWithPreferSource(db: Db, data: Db, o: Options)
    requires SoundDb(db) && ParkingHarmless(db, data, o) && Commits(db, data, o) && o.force && o.preferSource
    requires QuietSource(RowsOf(data, Accounts))
    ensures QuietAgain(db, data, o)
  {
    ParkedOnce(db, data, o);
    Repeated(db, data, o);
  }

  lemma {:induction false} StillConflictingMembers(conflicts: seq<EmailConflict>, ids: set<string>, c: EmailConflict)
    requires c in StillConflicting(conflicts, ids)
    ensures c in conflicts
  {
    if c != conflicts[|conflicts| - 1] {
      StillConflictingMembers(conflicts[..|conflicts| - 1], ids, c);
    }
  }

  /** Only a row without an id or an email is left to conflict. */
  lemma ConflictIsBlank(db: Db, data: Db, o: Options, c: EmailConflict)
    requires SoundDb(db) && ParkingHarmless(db, data, o) && Commits(db, data, o) && o.preferSource
    requires QuietSource(RowsOf(data, Accounts)) && c in OutcomeOf(db, data, o).report.conflicts
    ensures c.sqliteId == "" || Norm(c.sqliteEmail) == ""
  {
    var rows, table, known := RowsOf(data, Accounts), RowsOf(Base(db, data, o), Accounts), KnownBefore(db, data);
    PlanAt(db, data, o, Accounts);
    ConflictRow(rows, table, known, c);
    var i :| 0 <= i < |rows| && rows[i].id == c.sqliteId && rows[i].email == c.sqliteEmail
             && FateOf(Accounts, PlanOf(Accounts, rows[..i], table, known), rows[i]) == Conflicting(c.postgresId);
    RowsExplained(Accounts, rows, table, known, i);
    PlanTracks(Accounts, rows, table, known);
    NothingInTheWay(db, data, o, i);
  }

  /** It leaves no email conflict, on the first run or the second, but those of source
      rows without an id or an email. */
  lemma PreferSourceLeavesNoConflict(db: Db, data: Db, o: Options, c: EmailConflict)
    requires SoundDb(db) && ParkingHarmless(db, data, o) && Commits(db, data, o) && o.force && o.preferSource
    requires QuietSource(RowsOf(data, Accounts)) && c.sqliteId != "" && Norm(c.sqliteEmail) != ""
    ensures c !in OutcomeOf(db, data, o).report.conflicts
    ensures OutcomeOf(Merged(db, data, o), data, o).Done?
    ensures c !in OutcomeOf(Merged(db, data, o), data, o).report.conflicts
  {
    if c in OutcomeOf(db, data, o).report.conflicts {
      ConflictIsBlank(db, data, o, c);
    }
    ParkedOnce(db, data, o);
    Repeated(db, data, o);
    if c in OutcomeOf(Merged(db, data, o), data, o).report.conflicts {
      StillConflictingMembers(OutcomeOf(db, data, o).report.conflicts, Ids(RowsOf(Merged(db, data, o), Accounts)), c);
    }
  }
}
