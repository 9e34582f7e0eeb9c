/** When a dry run that prefers the source tells the truth
    (backend/scripts/migrate_accounts_to_postgres.py:307-346, 495-544). */
module DryRun {
  import opened Text
  import opened AccountsTables
  import opened EmailParking
  import opened Displacement
  import opened MergePlan
  import opened AccountsMerge
  import opened MergeGuarantees
  import opened MergeRepeat
  import opened MergeVerification

  // ---- a dry run parks the same accounts ---------------------------------------------------

  lemma DryStepAsWet(dry: Moving, wet: Moving, row: Row)
    requires dry.owners == wet.owners && dry.existing == wet.existing && dry.displaced == wet.displaced
    requires !dry.failed && !wet.failed && !MoveStep(wet, row, false).failed
    ensures var d, w := MoveStep(dry, row, true), MoveStep(wet, row, false);
            d.owners == w.owners && d.existing == w.existing && d.displaced == w.displaced && !d.failed
  {
  }

  /** Dry or not, the same owners are taken out of the way, unless the database refuses. */
  lemma {:induction false} DryMovesAsWet(accounts: seq<Row>, rows: seq<Row>)
    requires !MoveRows(StartMoving(accounts), rows, false).failed
    ensures var dry, wet := MoveRows(StartMoving(accounts), rows, true), MoveRows(StartMoving(accounts), rows, false);
            dry.owners == wet.owners && dry.existing == wet.existing && dry.displaced == wet.displaced && !dry.failed
  {
    if rows != [] {
      var front, row := rows[..|rows| - 1], rows[|rows| - 1];
      var start := StartMoving(accounts);
      MoveRowsLast(start, rows, true);
      MoveRowsLast(start, rows, false);
      if MoveRows(start, front, false).failed {
        FailedStays(MoveRows(start, front, false), row, false);
      }
      DryMovesAsWet(accounts, front);
      DryStepAsWet(MoveRows(start, front, true), MoveRows(start, front, false), row);
    }
  }

  /** The accounts with every reported move made. */
  function AsParked(accounts: seq<Row>, displaced: seq<Displaced>): seq<Row> {
    if displaced == [] then accounts
    else
      var last := displaced[|displaced| - 1];
      SetEmail(AsParked(accounts, displaced[..|displaced| - 1]), last.postgresId, last.displacedEmail)
  }

  lemma {:induction false} AsParkedOneMore(accounts: seq<Row>, displaced: seq<Displaced>, d: Displaced)
    ensures AsParked(accounts, displaced + [d])
            == SetEmail(AsParked(accounts, displaced), d.postgresId, d.displacedEmail)
  {
    assert (displaced + [d])[..|displaced|] == displaced;
  }

  lemma {:induction false} ParkedAsReported(accounts: seq<Row>, rows: seq<Row>)
    ensures var st := MoveRows(StartMoving(accounts), rows, false); st.accounts == AsParked(accounts, st.displaced)
  {
    if rows != [] {
      var front, row := rows[..|rows| - 1], rows[|rows| - 1];
      var st := MoveRows(StartMoving(accounts), front, false);
      ParkedAsReported(accounts, front);
      MoveRowsLast(StartMoving(accounts), rows, false);
      var owner := InTheWay(st.owners, row);
      AsParkedOneMore(accounts, st.displaced, Displaced(owner, Norm(row.email), Parked(owner, st.existing), row.id));
    }
  }

  // ---- whose address changes hands -----------------------------------------------------------

  ghost predicate SameHolder(was: map<string, string>, now: map<string, string>, e: string) {
    (e in was <==> e in now) && (e in was ==> was[e] == now[e])
  }

  /** The addresses, as compared after normalisation, that do not have the same holder. */
  ghost function Changed(was: map<string, string>, now: map<string, string>): set<string> {
    set e | e in was.Keys + now.Keys && !SameHolder(was, now, e)
  }

  lemma {:induction false} DisplacedNamed(accounts: seq<Row>, rows: seq<Row>, dryRun: bool)
    ensures forall d :: d in MoveRows(StartMoving(accounts), rows, dryRun).displaced ==> d.postgresId != ""
  {
    if rows != [] {
      DisplacedNamed(accounts, rows[..|rows| - 1], dryRun);
      MoveRowsLast(StartMoving(accounts), rows, dryRun);
    }
  }

  /** An address of the account without an id stays with it. */
  lemma {:induction false} NamelessStays(a: seq<Row>, b: seq<Row>, e: string)
    requires |a| == |b| && forall i :: 0 <= i < |a| && a[i].id == "" ==> b[i] == a[i]
    requires e in Owners(a) && Owners(a)[e] == ""
    ensures e in Owners(b)
  {
    OwnerHasRow(a, e);
    var r :| r in a && Norm(r.email) == e && r.id == "";
    var i :| 0 <= i < |a| && a[i] == r;
    assert b[i] in b && UniqueKey(Accounts, b[i]) == e;
    OwnersKeys(b);
  }

  // ---- the same plan, as long as nobody new asks for such an address -------------------------

  /** The same plan so far, on owners that differ at most on these addresses. */
  ghost predicate Alike(d: Plan, w: Plan, changed: set<string>) {
    && d.pks == w.pks && d.known == w.known && d.payload == w.payload && d.skipped == w.skipped
    && d.conflicts == w.conflicts && d.migrated == w.migrated && d.skippedEmails == w.skippedEmails
    && forall e :: e !in changed ==> SameHolder(d.owners, w.owners, e) && (e in d.uniq <==> e in w.uniq)
  }

  lemma StepAlike(d: Plan, w: Plan, changed: set<string>, row: Row)
    requires Alike(d, w, changed)
    requires Norm(row.email) !in changed || PrimaryKey(Accounts, row) in d.pks
    ensures Alike(PlanStep(Accounts, d, row), PlanStep(Accounts, w, row), changed)
  {
    assert FateOf(Accounts, d, row) == FateOf(Accounts, w, row);
  }

  /** None of these addresses was taken since. */
  ghost predicate Untaken(st: Plan, was: map<string, string>, changed: set<string>) {
    forall e :: e in changed && e !in was ==> e !in st.owners
  }

  lemma StepUntaken(st: Plan, was: map<string, string>, changed: set<string>, row: Row)
    requires Untaken(st, was, changed)
    requires Norm(row.email) !in changed || PrimaryKey(Accounts, row) in st.pks
    ensures Untaken(PlanStep(Accounts, st, row), was, changed)
  {
  }

  /** The account is there when its row's turn comes, live or from an earlier row. */
  ghost predicate ThereAtItsTurn(rows: seq<Row>, live: seq<Row>, known: set<string>, i: nat)
    requires i < |rows|
  {
    PrimaryKey(Accounts, rows[i]) in PlanOf(Accounts, rows[..i], live, known).pks
  }

  /** Of the first n source rows, those that ask for an address that parking frees or hands
      out are for accounts that are there already. */
  ghost predicate RoomForNobodyNew(rows: seq<Row>, live: seq<Row>, known: set<string>, changed: set<string>, n: nat)
    requires n <= |rows|
  {
    forall i :: 0 <= i < n && Norm(rows[i].email) in changed ==> ThereAtItsTurn(rows, live, known, i)
  }

  /** The two runs' plans after n rows. */
  ghost predicate AlikeAt(rows: seq<Row>, live: seq<Row>, moved: seq<Row>, known: set<string>, changed: set<string>,
                          n: nat)
    requires n <= |rows|
  {
    && Alike(PlanOf(Accounts, rows[..n], live, known), PlanOf(Accounts, rows[..n], moved, known), changed)
    && Untaken(PlanOf(Accounts, rows[..n], live, known), Owners(live), changed)
    && Untaken(PlanOf(Accounts, rows[..n], moved, known), Owners(moved), changed)
  }

  lemma {:induction false} AlikeAtStart(rows: seq<Row>, live: seq<Row>, moved: seq<Row>, known: set<string>)
    requires PrimaryKeys(Accounts, live) == PrimaryKeys(Accounts, moved)
    ensures AlikeAt(rows, live, moved, known, Changed(Owners(live), Owners(moved)), 0)
  {
    assert rows[..0] == [];
    OwnersKeys(live);
    OwnersKeys(moved);
  }

  lemma AlikeNext(rows: seq<Row>, live: seq<Row>, moved: seq<Row>, known: set<string>, changed: set<string>, n: nat)
    requires n < |rows| && (Norm(rows[n].email) in changed ==> ThereAtItsTurn(rows, live, known, n))
    requires AlikeAt(rows, live, moved, known, changed, n)
    ensures AlikeAt(rows, live, moved, known, changed, n + 1)
  {
    var d, w := PlanOf(Accounts, rows[..n], live, known), PlanOf(Accounts, rows[..n], moved, known);
    assert rows[..n + 1] == rows[..n] + [rows[n]];
    PlanOfLast(Accounts, rows[..n], rows[n], live, known);
    PlanOfLast(Accounts, rows[..n], rows[n], moved, known);
    StepAlike(d, w, changed, rows[n]);
    StepUntaken(d, Owners(live), changed, rows[n]);
    StepUntaken(w, Owners(moved), changed, rows[n]);
  }

  lemma RoomFront(rows: seq<Row>, live: seq<Row>, known: set<string>, changed: set<string>, n: nat)
    requires n < |rows| && RoomForNobodyNew(rows, live, known, changed, n + 1)
    ensures RoomForNobodyNew(rows, live, known, changed, n)
    ensures Norm(rows[n].email) in changed ==> ThereAtItsTurn(rows, live, known, n)
  {
  }

  lemma {:induction false} AlikeSoFar(rows: seq<Row>, live: seq<Row>, moved: seq<Row>, known: set<string>,
                                      changed: set<string>, n: nat)
    requires n <= |rows| && changed == Changed(Owners(live), Owners(moved))
    requires PrimaryKeys(Accounts, live) == PrimaryKeys(Accounts, moved)
    requires RoomForNobodyNew(rows, live, known, changed, n)
    ensures AlikeAt(rows, live, moved, known, changed, n)
  {
    if n == 0 {
      AlikeAtStart(rows, live, moved, known);
    } else {
      var m := n - 1;
      RoomFront(rows, live, known, changed, m);
      AlikeSoFar(rows, live, moved, known, changed, m);
      AlikeNext(rows, live, moved, known, changed, m);
    }
  }

  // ---- a conflict in one report only, when somebody new does -----------------------------------

  /** A row refused for its holder in one plan, and in the other inserted, or refused or
      dropped for another holder, leaves that conflict in the one only. */
  lemma {:induction false} OneSided(rows: seq<Row>, a: seq<Row>, b: seq<Row>, known: set<string>, i: nat, owner: string)
    requires i < |rows|
    requires FateOf(Accounts, PlanOf(Accounts, rows[..i], a, known), rows[i]) == Conflicting(owner)
    requires FateOf(Accounts, PlanOf(Accounts, rows[..i], b, known), rows[i]).Inserted?
             || (Norm(rows[i].email) in Owners(b) && Owners(b)[Norm(rows[i].email)] != owner)
    ensures EmailConflict(rows[i].id, rows[i].email, owner) in PlanOf(Accounts, rows, a, known).conflicts
    ensures EmailConflict(rows[i].id, rows[i].email, owner) !in PlanOf(Accounts, rows, b, known).conflicts
  {
    RowsExplained(Accounts, rows, a, known, i);
    var c := EmailConflict(rows[i].id, rows[i].email, owner);
    if c in PlanOf(Accounts, rows, b, known).conflicts {
      ConflictRow(rows, b, known, c);
      var j :| 0 <= j < |rows| && rows[j].id == c.sqliteId && rows[j].email == c.sqliteEmail
               && FateOf(Accounts, PlanOf(Accounts, rows[..j], b, known), rows[j]) == Conflicting(c.postgresId);
      if FateOf(Accounts, PlanOf(Accounts, rows[..i], b, known), rows[i]).Inserted? {
        NeverRefused(rows, b, known, i, j);
      } else {
        HolderFrom(rows, b, known, j, Norm(rows[i].email));
      }
    }
  }

  /** Who holds an address in the table holds it at every turn. */
  lemma {:induction false} HolderFrom(rows: seq<Row>, table: seq<Row>, known: set<string>, j: nat, e: string)
    requires j <= |rows| && e in Owners(table)
    ensures var st := PlanOf(Accounts, rows[..j], table, known); e in st.owners && st.owners[e] == Owners(table)[e]
  {
    assert rows[..0] == [];
    OwnerStays(rows, table, known, 0, j, e);
  }

  /** Before a row is inserted its address is free; after that its id is there. */
  lemma NeverRefused(rows: seq<Row>, table: seq<Row>, known: set<string>, i: nat, j: nat)
    requires i < |rows| && j < |rows| && rows[j].id == rows[i].id && rows[j].email == rows[i].email
    requires FateOf(Accounts, PlanOf(Accounts, rows[..i], table, known), rows[i]).Inserted?
    ensures !FateOf(Accounts, PlanOf(Accounts, rows[..j], table, known), rows[j]).Conflicting?
  {
    if j <= i && Norm(rows[j].email) in PlanOf(Accounts, rows[..j], table, known).owners {
      OwnerStays(rows, table, known, j, i, Norm(rows[j].email));
      TakenEmails(rows, table, known, i);
    } else if i < j {
      KeyStays(rows, table, known, i, j);
    }
  }

  /** The first row, if any, for an account that is not there yet and asks for such an address. */
  lemma {:induction false} FirstNewcomer(rows: seq<Row>, live: seq<Row>, known: set<string>, changed: set<string>,
                                         n: nat)
    returns (i: nat)
    requires n <= |rows| && !RoomForNobodyNew(rows, live, known, changed, n)
    ensures i < n && RoomForNobodyNew(rows, live, known, changed, i)
    ensures Norm(rows[i].email) in changed && !ThereAtItsTurn(rows, live, known, i)
  {
    if RoomForNobodyNew(rows, live, known, changed, n - 1) {
      i := n - 1;
    } else {
      i := FirstNewcomer(rows, live, known, changed, n - 1);
    }
  }

  /** What becomes of a new account's row by the holder of its address. */
  function NewcomerFate(owners: map<string, string>, e: string): Fate {
    if e !in owners then Inserted else if owners[e] != "" then Conflicting(owners[e]) else KeyTaken
  }

  lemma {:induction false} OneNewcomer(rows: seq<Row>, table: seq<Row>, known: set<string>, changed: set<string>,
                                       i: nat)
    requires i < |rows| && Norm(rows[i].email) in changed && !ThereAtItsTurn(rows, table, known, i)
    requires Untaken(PlanOf(Accounts, rows[..i], table, known), Owners(table), changed)
    ensures FateOf(Accounts, PlanOf(Accounts, rows[..i], table, known), rows[i])
            == NewcomerFate(Owners(table), Norm(rows[i].email))
  {
    var e := Norm(rows[i].email);
    TakenEmails(rows, table, known, i);
    NotLive(rows, table, known, i);
    if e in Owners(table) {
      HolderFrom(rows, table, known, i, e);
      OwnerHasRow(table, e);
    }
  }

  /** At its turn each of the two plans treats such a row by the holder it sees. */
  lemma {:induction false} NewcomerFates(rows: seq<Row>, live: seq<Row>, moved: seq<Row>, known: set<string>,
                                         changed: set<string>, i: nat)
    requires i < |rows| && changed == Changed(Owners(live), Owners(moved))
    requires PrimaryKeys(Accounts, live) == PrimaryKeys(Accounts, moved)
    requires RoomForNobodyNew(rows, live, known, changed, i)
    requires Norm(rows[i].email) in changed && !ThereAtItsTurn(rows, live, known, i)
    ensures FateOf(Accounts, PlanOf(Accounts, rows[..i], live, known), rows[i])
            == NewcomerFate(Owners(live), Norm(rows[i].email))
    ensures FateOf(Accounts, PlanOf(Accounts, rows[..i], moved, known), rows[i])
            == NewcomerFate(Owners(moved), Norm(rows[i].email))
  {
    AlikeSoFar(rows, live, moved, known, changed, i);
    OneNewcomer(rows, live, known, changed, i);
    OneNewcomer(rows, moved, known, changed, i);
  }

  lemma NotLive(rows: seq<Row>, live: seq<Row>, known: set<string>, i: nat)
    requires i < |rows| && !ThereAtItsTurn(rows, live, known, i)
    ensures rows[i].id !in Ids(live)
  {
    PlanTracks(Accounts, rows[..i], live, known);
    KeysConcat(Accounts, live, PlanOf(Accounts, rows[..i], live, known).payload);
    IdIsKey(live, rows[i]);
  }

  // ---- the two reports ------------------------------------------------------------------------------

  /** What the two runs plan against. */
  lemma TwoBases(db: Db, data: Db, o: Options)
    requires !o.dryRun && o.preferSource && Accounts in data && Commits(db, data, o)
    ensures Base(db, data, o.(dryRun := true)) == db
    ensures Accounts in db
    ensures Base(db, data, o) == db[Accounts := MoveRows(StartMoving(db[Accounts]), data[Accounts], false).accounts]
    ensures Moved(db, data, o.(dryRun := true)) == MoveRows(StartMoving(db[Accounts]), data[Accounts], true)
  {
    MovedFrame(db, data, o.(dryRun := true));
    assert db[Accounts := db[Accounts]] == db;
  }

  ghost predicate SameAccountsPart(a: Plan, b: Plan) {
    && a.known == b.known && a.payload == b.payload && a.skipped == b.skipped && a.conflicts == b.conflicts
    && a.migrated == b.migrated && a.skippedEmails == b.skippedEmails
  }

  lemma SameReports(db: Db, data: Db, o: Options)
    requires !o.dryRun && o.preferSource && Accounts in data && Commits(db, data, o)
    requires SameAccountsPart(PlansFor(db, data, o.(dryRun := true)).accounts, PlansFor(db, data, o).accounts)
    requires Moved(db, data, o.(dryRun := true)).displaced == Moved(db, data, o).displaced
    ensures SamePlan(ReportOf(db, data, o.(dryRun := true)), ReportOf(db, data, o))
  {
    TwoBases(db, data, o);
    var dry, wet := PlansFor(db, data, o.(dryRun := true)), PlansFor(db, data, o);
    assert dry.apiKeys == wet.apiKeys && dry.loginTokens == wet.loginTokens;
    assert dry.sessionOwners == wet.sessionOwners && dry.usageCounters == wet.usageCounters;
  }

  /** The addresses whose holder the parking changes, told from the moves that the dry run
      reports. */
  ghost function ChangedEmails(db: Db, data: Db, o: Options): set<string> {
    var live := RowsOf(db, Accounts);
    Changed(Owners(live), Owners(AsParked(live, Moved(db, data, o.(dryRun := true)).displaced)))
  }

  ghost predicate NobodyNew(db: Db, data: Db, o: Options) {
    RoomForNobodyNew(RowsOf(data, Accounts), RowsOf(db, Accounts), KnownBefore(db, data), ChangedEmails(db, data, o),
                     |RowsOf(data, Accounts)|)
  }

  /** The accounts tables of the two runs: the same accounts, moved as reported. */
  lemma TwoTables(db: Db, data: Db, o: Options)
    requires Commits(db, data, o) && o.preferSource && Accounts in data
    ensures Accounts in db && Accounts in Base(db, data, o)
    ensures PrimaryKeys(Accounts, db[Accounts]) == PrimaryKeys(Accounts, Base(db, data, o)[Accounts])
    ensures Moved(db, data, o.(dryRun := true)).displaced == Moved(db, data, o).displaced
    ensures ChangedEmails(db, data, o) == Changed(Owners(db[Accounts]), Owners(Base(db, data, o)[Accounts]))
  {
    TwoBases(db, data, o);
    DryMovesAsWet(db[Accounts], data[Accounts]);
    ParkedAsReported(db[Accounts], data[Accounts]);
    MovedFrame(db, data, o);
    FrameIds(db[Accounts], Base(db, data, o)[Accounts], Moved(db, data, o).displaced);
  }

  lemma TwoPlans(db: Db, data: Db, o: Options)
    requires !o.dryRun && o.preferSource && Accounts in data && Commits(db, data, o)
    ensures Accounts in db && Accounts in Base(db, data, o)
    ensures PlansFor(db, data, o.(dryRun := true)).accounts ==
            PlanOf(Accounts, data[Accounts], db[Accounts], KnownBefore(db, data))
    ensures PlansFor(db, data, o).accounts ==
            PlanOf(Accounts, data[Accounts], Base(db, data, o)[Accounts], KnownBefore(db, data))
  {
    TwoBases(db, data, o);
    PlanAt(db, data, o, Accounts);
    PlanAt(db, data, o.(dryRun := true), Accounts);
  }

  lemma DryRunTrue(db: Db, data: Db, o: Options)
    requires Commits(db, data, o) && o.preferSource && Accounts in data && NobodyNew(db, data, o)
    ensures SamePlan(ReportOf(db, data, o.(dryRun := true)), ReportOf(db, data, o))
  {
    TwoTables(db, data, o);
    TwoPlans(db, data, o);
    var rows := data[Accounts];
    AlikeSoFar(rows, db[Accounts], Base(db, data, o)[Accounts], KnownBefore(db, data), ChangedEmails(db, data, o),
               |rows|);
    assert rows[..|rows|] == rows;
    SameReports(db, data, o);
  }

  /** The account without an id keeps its address, and gets no other. */
  lemma NamelessKeepsAddress(db: Db, data: Db, o: Options, e: string)
    requires Commits(db, data, o) && o.preferSource && Accounts in data && Accounts in db
             && Accounts in Base(db, data, o)
    ensures e in Owners(db[Accounts]) && Owners(db[Accounts])[e] == "" ==> e in Owners(Base(db, data, o)[Accounts])
    ensures e in Owners(Base(db, data, o)[Accounts]) && Owners(Base(db, data, o)[Accounts])[e] == ""
            ==> e in Owners(db[Accounts])
  {
    var live, moved := db[Accounts], Base(db, data, o)[Accounts];
    MovedFrame(db, data, o);
    DisplacedNamed(live, data[Accounts], false);
    if e in Owners(live) && Owners(live)[e] == "" {
      NamelessStays(live, moved, e);
    }
    if e in Owners(moved) && Owners(moved)[e] == "" {
      NamelessStays(moved, live, e);
    }
  }

  /** Two plans over different holders of a new account's address: a conflict in one only. */
  lemma NewcomerTells(rows: seq<Row>, live: seq<Row>, moved: seq<Row>, known: set<string>,
                      i: nat) returns (c: EmailConflict)
    requires i < |rows| && !SameHolder(Owners(live), Owners(moved), Norm(rows[i].email))
    requires FateOf(Accounts, PlanOf(Accounts, rows[..i], live, known), rows[i])
             == NewcomerFate(Owners(live), Norm(rows[i].email))
    requires FateOf(Accounts, PlanOf(Accounts, rows[..i], moved, known), rows[i])
             == NewcomerFate(Owners(moved), Norm(rows[i].email))
    requires var e := Norm(rows[i].email);
             && (e in Owners(live) && Owners(live)[e] == "" ==> e in Owners(moved))
             && (e in Owners(moved) && Owners(moved)[e] == "" ==> e in Owners(live))
    ensures c.sqliteId == rows[i].id && c.sqliteEmail == rows[i].email
    ensures c in PlanOf(Accounts, rows, live, known).conflicts <==> c !in PlanOf(Accounts, rows, moved, known).conflicts
    ensures c in PlanOf(Accounts, rows, live, known).conflicts
            <==> NewcomerFate(Owners(live), Norm(rows[i].email)).Conflicting?
  {
    var e := Norm(rows[i].email);
    if NewcomerFate(Owners(live), e).Conflicting? {
      c := EmailConflict(rows[i].id, rows[i].email, Owners(live)[e]);
      OneSided(rows, live, moved, known, i, Owners(live)[e]);
    } else {
      c := EmailConflict(rows[i].id, rows[i].email, Owners(moved)[e]);
      OneSided(rows, moved, live, known, i, Owners(moved)[e]);
    }
  }

  /** Somebody new at an address that changed hands: one of the two reports lists a conflict
      that the other does not have, the dry one when the address had a holder with an id. */
  lemma DryRunFalse(db: Db, data: Db, o: Options) returns (i: nat, c: EmailConflict)
    requires Commits(db, data, o) && o.preferSource && Accounts in data && !NobodyNew(db, data, o)
    ensures i < |data[Accounts]| && c.sqliteId == data[Accounts][i].id && c.sqliteEmail == data[Accounts][i].email
    ensures !ThereAtItsTurn(data[Accounts], RowsOf(db, Accounts), KnownBefore(db, data), i)
    ensures c in ReportOf(db, data, o.(dryRun := true)).conflicts <==> c !in ReportOf(db, data, o).conflicts
    ensures c in ReportOf(db, data, o.(dryRun := true)).conflicts
            <==> NewcomerFate(Owners(RowsOf(db, Accounts)), Norm(c.sqliteEmail)).Conflicting?
  {
    TwoTables(db, data, o);
    TwoPlans(db, data, o);
    var rows, live, moved := data[Accounts], db[Accounts], Base(db, data, o)[Accounts];
    var known, changed := KnownBefore(db, data), ChangedEmails(db, data, o);
    i := FirstNewcomer(rows, live, known, changed, |rows|);
    NamelessKeepsAddress(db, data, o, Norm(rows[i].email));
    NewcomerFates(rows, live, moved, known, changed, i);
    c := NewcomerTells(rows, live, moved, known, i);
  }

  /** For every target, every source and every merge with `prefer_source` that commits: the
      dry run reports what the real run then does exactly when each source row whose address,
      after normalisation, changes hands through the parking is for an account that is there
      by then; otherwise one of them reports a conflict the other does not. */
  lemma DryRunExactly(db: Db, data: Db, o: Options)
    requires Commits(db, data, o) && o.preferSource && Accounts in data
    ensures SamePlan(ReportOf(db, data, o.(dryRun := true)), ReportOf(db, data, o)) <==> NobodyNew(db, data, o)
  {
    if NobodyNew(db, data, o) {
      DryRunTrue(db, data, o);
    } else {
      var i, c := DryRunFalse(db, data, o);
    }
  }

  ghost predicate SameOutcome(dry: Outcome, wet: Outcome) {
    if dry.Done? && wet.Done? then SamePlan(dry.report, wet.report) else dry == wet
  }

  lemma NeverRefusedDry(db: Db, data: Db, o: Options)
    ensures Startable(db, data, o) ==> OutcomeOf(db, data, o.(dryRun := true)).Done?
    ensures !Startable(db, data, o) ==> OutcomeOf(db, data, o.(dryRun := true)) == OutcomeOf(db, data, o)
    ensures Startable(db, data, o) && Moved(db, data, o).failed ==> OutcomeOf(db, data, o).ConstraintViolation?
  {
    MovedFrame(db, data, o.(dryRun := true));
  }

  /** And for every merge with `prefer_source`, committed or not: the dry run comes out as the
      real run exactly when neither starts, or when the database refuses no update and nobody
      new asks for such an address. */
  lemma DryRunOutcomeExactly(db: Db, data: Db, o: Options)
    requires !o.dryRun && o.preferSource && Accounts in data
    ensures SameOutcome(OutcomeOf(db, data, o.(dryRun := true)), OutcomeOf(db, data, o))
            <==> !Startable(db, data, o) || (!Moved(db, data, o).failed && NobodyNew(db, data, o))
  {
    NeverRefusedDry(db, data, o);
    if Startable(db, data, o) && !Moved(db, data, o).failed {
      DryRunExactly(db, data, o);
    }
  }

  lemma DistinctIdsAreLive(rows: seq<Row>, live: seq<Row>, known: set<string>, i: nat)
    requires i < |rows| && DistinctIds(rows)
    ensures ThereAtItsTurn(rows, live, known, i) <==> rows[i].id in Ids(live)
  {
    if rows[i].id in Ids(live) {
      if !ThereAtItsTurn(rows, live, known, i) {
        NotLive(rows, live, known, i);
      }
    } else {
      StillAbsent(rows, live, known, i);
    }
  }

  /** For a source whose ids are distinct: exactly when every source account that asks for
      such an address is live already. */
  lemma DryRunExactlyByIds(db: Db, data: Db, o: Options)
    requires Commits(db, data, o) && o.preferSource && Accounts in data && DistinctIds(data[Accounts])
    ensures SamePlan(ReportOf(db, data, o.(dryRun := true)), ReportOf(db, data, o))
            <==> forall i :: 0 <= i < |data[Accounts]| && Norm(data[Accounts][i].email) in ChangedEmails(db, data, o)
                             ==> data[Accounts][i].id in Ids(RowsOf(db, Accounts))
  {
    DryRunExactly(db, data, o);
    forall i | 0 <= i < |data[Accounts]|
      ensures ThereAtItsTurn(data[Accounts], RowsOf(db, Accounts), KnownBefore(db, data), i)
              <==> data[Accounts][i].id in Ids(RowsOf(db, Accounts))
    {
      DistinctIdsAreLive(data[Accounts], RowsOf(db, Accounts), KnownBefore(db, data), i);
    }
  }
}
