/** Which sources report the same email conflicts when they are merged again
    (backend/scripts/migrate_accounts_to_postgres.py:372-422, 495-529). */
module RepeatedConflicts {
  import opened NameLists
  import opened Text
  import opened AccountsTables
  import opened EmailParking
  import opened MergePlan
  import opened AccountsMerge
  import opened MergeGuarantees
  import opened MergeRepeat
  import opened LiveCrowd

  /** No id stands earlier and again later with another normalised email. */
  ghost predicate OneAddressPerId(rows: seq<Row>) {
    forall i, j :: 0 <= i < j < |rows| && rows[i].id == rows[j].id ==> Norm(rows[i].email) == Norm(rows[j].email)
  }

  /** The merge made once more reports the conflicts of the first run. */
  ghost predicate ConflictsAgain(db: Db, data: Db, o: Options)
    requires Commits(db, data, o)
  {
    && Commits(Merged(db, data, o), data, o)
    && OutcomeOf(Merged(db, data, o), data, o).report.conflicts == OutcomeOf(db, data, o).report.conflicts
  }

  // ---- one address per id: the conflict stays ------------------------------------------------

  /** An account refused for its email stays out if no later row of its id has another. */
  lemma ConflictStaysOut(rows: seq<Row>, table: seq<Row>, known: set<string>, c: EmailConflict)
    requires OneAddressPerId(rows) && c in PlanOf(Accounts, rows, table, known).conflicts
    ensures c.sqliteId !in Ids(table + PlanOf(Accounts, rows, table, known).payload)
  {
    var payload := PlanOf(Accounts, rows, table, known).payload;
    ConflictRow(rows, table, known, c);
    var i :| 0 <= i < |rows| && rows[i].id == c.sqliteId
             && FateOf(Accounts, PlanOf(Accounts, rows[..i], table, known), rows[i]) == Conflicting(c.postgresId);
    NotYetThere(rows, table, known, i);
    KeysConcat(Accounts, table, payload);
    forall r | r in payload ensures r.id != c.sqliteId {
      PayloadRow(rows, table, known, r);
      var j :| 0 <= j < |rows| && rows[j] == r
               && FateOf(Accounts, PlanOf(Accounts, rows[..j], table, known), rows[j]).Inserted?;
      if rows[j].id == c.sqliteId {
        NotInsertedLater(rows, table, known, i, j);
      }
    }
  }

  /** At its turn a row that conflicts has its id neither in the table nor in the payload. */
  lemma NotYetThere(rows: seq<Row>, table: seq<Row>, known: set<string>, i: nat)
    requires i < |rows| && FateOf(Accounts, PlanOf(Accounts, rows[..i], table, known), rows[i]).Conflicting?
    ensures rows[i].id !in Ids(table) && rows[i].id !in Ids(PlanOf(Accounts, rows[..i], table, known).payload)
  {
    var st := PlanOf(Accounts, rows[..i], table, known);
    PlanTracks(Accounts, rows[..i], table, known);
    IdIsKey(table + st.payload, rows[i]);
    KeysConcat(Accounts, table, st.payload);
  }

  /** The owner that refused it once refuses it again; and earlier it was not inserted. */
  lemma NotInsertedLater(rows: seq<Row>, table: seq<Row>, known: set<string>, i: nat, j: nat)
    requires OneAddressPerId(rows) && i < |rows| && j < |rows| && rows[i].id == rows[j].id
    requires FateOf(Accounts, PlanOf(Accounts, rows[..i], table, known), rows[i]).Conflicting?
    ensures !FateOf(Accounts, PlanOf(Accounts, rows[..j], table, known), rows[j]).Inserted?
  {
    if i < j {
      OwnerStays(rows, table, known, i, j, Norm(rows[i].email));
    } else if j < i && FateOf(Accounts, PlanOf(Accounts, rows[..j], table, known), rows[j]).Inserted? {
      KeyStays(rows, table, known, j, i);
    }
  }

  // ---- two addresses under one id: a target whose conflict is forgotten ------------------------

  /** The ids of these rows other than x, each once. */
  function OtherIds(rows: seq<Row>, x: string): seq<string> {
    if rows == [] then []
    else
      var front, id := OtherIds(rows[..|rows| - 1], x), rows[|rows| - 1].id;
      if id == x || id in front then front else front + [id]
  }

  lemma {:induction false} OtherIdsAre(rows: seq<Row>, x: string)
    ensures forall i, j :: 0 <= i < j < |OtherIds(rows, x)| ==> OtherIds(rows, x)[i] != OtherIds(rows, x)[j]
    ensures Names(OtherIds(rows, x)) == Ids(rows) - {x}
  {
    if rows != [] {
      var front, last := rows[..|rows| - 1], rows[|rows| - 1];
      OtherIdsAre(front, x);
      assert rows == front + [last];
      KeysAppend(Accounts, front, last);
      assert Names(OtherIds(front, x) + [last.id]) == Names(OtherIds(front, x)) + {last.id};
    }
  }

  /** Everyone before the two rows but their own id, and a stranger at the first address. */
  function Rivals(rows: seq<Row>, i: nat, j: nat): seq<Row>
    requires i < j < |rows|
  {
    Crowd(OtherIds(rows[..j], rows[i].id), {Norm(rows[i].email), Norm(rows[j].email)})
    + [Someone(Stranger(rows, j), rows[i].email)]
  }

  function Stranger(rows: seq<Row>, j: nat): string
    requires j < |rows|
  {
    Parked("x", Ids(rows[..j]))
  }

  lemma RivalsAre(rows: seq<Row>, i: nat, j: nat)
    requires i < j < |rows| && Norm(rows[i].email) != Norm(rows[j].email)
    ensures Sound(Accounts, Rivals(rows, i, j))
    ensures Ids(Rivals(rows, i, j)) == Ids(rows[..j]) - {rows[i].id} + {Stranger(rows, j)}
    ensures Stranger(rows, j) != rows[i].id && Stranger(rows, j) != ""
    ensures Norm(rows[j].email) !in UniqueKeys(Accounts, Rivals(rows, i, j))
    ensures Norm(rows[i].email) in Owners(Rivals(rows, i, j))
    ensures Owners(Rivals(rows, i, j))[Norm(rows[i].email)] == Stranger(rows, j)
  {
    var ids, avoid := OtherIds(rows[..j], rows[i].id), {Norm(rows[i].email), Norm(rows[j].email)};
    var o := Stranger(rows, j);
    OtherIdsAre(rows[..j], rows[i].id);
    CrowdIs(ids, avoid);
    ParkedX(Ids(rows[..j]));
    assert rows[i] == rows[..j][i] && rows[i] in rows[..j];
    OneMore(Crowd(ids, avoid), Someone(o, rows[i].email));
    OwnersAppend(Crowd(ids, avoid), Someone(o, rows[i].email));
    CandidateIsParkedAddress("x", FirstFree("x", Ids(rows[..j]), 0));
  }

  /** The rows before the second one: of that id under the first address, or of a live id. */
  ghost predicate Blocked(r: Row, id: string, email: string, ids: set<string>) {
    if r.id == id then Norm(r.email) == email else r.id in ids
  }

  /** Against accounts without that id, one of them at the first address, none of them gets in. */
  lemma {:induction false} NoneBefore(rows: seq<Row>, live: seq<Row>, id: string, email: string, n: nat)
    requires n <= |rows| && id !in Ids(live) && forall r :: r in rows[..n] ==> Blocked(r, id, email, Ids(live))
    requires email in Owners(live) && Owners(live)[email] != "" && Owners(live)[email] != id
    ensures SameSets(PlanOf(Accounts, rows[..n], live, Ids(live)), StartPlan(Accounts, live, Ids(live)))
  {
    var start := StartPlan(Accounts, live, Ids(live));
    forall r | r in rows[..n] ensures !FateOf(Accounts, start, r).Inserted? {
      IdIsKey(live, r);
    }
    NoneGetsIn(start, rows[..n]);
  }

  lemma AllBlocked(rows: seq<Row>, i: nat, j: nat, ids: set<string>)
    requires i < j < |rows| && Ids(rows[..j]) - {rows[i].id} <= ids
    requires forall m :: 0 <= m < j && rows[m].id == rows[i].id ==> Norm(rows[m].email) == Norm(rows[i].email)
    ensures forall r :: r in rows[..j] ==> Blocked(r, rows[i].id, Norm(rows[i].email), ids)
  {
    forall r | r in rows[..j] ensures Blocked(r, rows[i].id, Norm(rows[i].email), ids) {
      var m :| 0 <= m < j && rows[..j][m] == r;
      assert rows[m] == r && r.id in Ids(rows[..j]);
    }
  }

  /** The first row is refused, the second gets in. */
  lemma {:induction false} RefusedThenIn(rows: seq<Row>, i: nat, j: nat, live: seq<Row>, o: string)
    requires i < j < |rows| && rows[i].id == rows[j].id && rows[i].id !in Ids(live) && o != "" && o != rows[i].id
    requires forall r :: r in rows[..j] ==> Blocked(r, rows[i].id, Norm(rows[i].email), Ids(live))
    requires Norm(rows[i].email) in Owners(live) && Owners(live)[Norm(rows[i].email)] == o
    requires Norm(rows[j].email) !in UniqueKeys(Accounts, live)
    ensures var end := PlanOf(Accounts, rows, live, Ids(live));
            EmailConflict(rows[i].id, rows[i].email, o) in end.conflicts && rows[i].id in Ids(end.payload)
  {
    var known := Ids(live);
    assert forall r :: r in rows[..i] ==> r in rows[..j];
    NoneBefore(rows, live, rows[i].id, Norm(rows[i].email), i);
    NoneBefore(rows, live, rows[i].id, Norm(rows[i].email), j);
    IdIsKey(live, rows[i]);
    IdIsKey(live, rows[j]);
    OwnersKeys(live);
    RowsExplained(Accounts, rows, live, known, i);
    RowsExplained(Accounts, rows, live, known, j);
  }

  /** Two source rows with one id: the first conflicts over its address, the second gets
      in, and a second run of the merge no longer reports the conflict. */
  lemma RepeatedIdForgets(data: Db, i: nat, j: nat) returns (live: seq<Row>, o: Options)
    requires Accounts in data && i < j < |data[Accounts]| && data[Accounts][i].id == data[Accounts][j].id
    requires Norm(data[Accounts][i].email) != Norm(data[Accounts][j].email)
    requires forall m :: 0 <= m < j && data[Accounts][m].id == data[Accounts][i].id ==>
               Norm(data[Accounts][m].email) == Norm(data[Accounts][i].email)
    ensures o.force && !o.preferSource && SoundDb(TargetFor(data, live)) && Commits(TargetFor(data, live), data, o)
    ensures !ConflictsAgain(TargetFor(data, live), data, o)
  {
    var rows := data[Accounts];
    live, o := Rivals(rows, i, j), Options(true, false, false);
    RivalsAre(rows, i, j);
    TargetTakes(data, live, o);
    AllBlocked(rows, i, j, Ids(live));
    RefusedThenIn(rows, i, j, live, Stranger(rows, j));
    ForgottenAgain(TargetFor(data, live), data, o, EmailConflict(rows[i].id, rows[i].email, Stranger(rows, j)));
  }

  /** A conflict of the first run whose id the same run inserted is not reported again. */
  lemma ForgottenAgain(db: Db, data: Db, o: Options, c: EmailConflict)
    requires Commits(db, data, o) && o.force && !o.preferSource && Accounts in data && Accounts in db
    requires c in PlanOf(Accounts, data[Accounts], db[Accounts], Ids(db[Accounts])).conflicts
    requires c.sqliteId in Ids(PlanOf(Accounts, data[Accounts], db[Accounts], Ids(db[Accounts])).payload)
    ensures !ConflictsAgain(db, data, o)
  {
    MovedFrame(db, data, o);
    PlanAt(db, data, o, Accounts);
    RepeatWithoutPreferSource(db, data, o);
    KeysConcat(Accounts, db[Accounts], PlanOf(Accounts, data[Accounts], db[Accounts], Ids(db[Accounts])).payload);
  }

  // ---- exactly which sources --------------------------------------------------------------------

  lemma OneAddressConflictsAgain(db: Db, data: Db, o: Options)
    requires Commits(db, data, o) && o.force && !o.preferSource && OneAddressPerId(RowsOf(data, Accounts))
    ensures ConflictsAgain(db, data, o)
  {
    RepeatWithoutPreferSource(db, data, o);
    var rows, table, known := RowsOf(data, Accounts), RowsOf(Base(db, data, o), Accounts), KnownBefore(db, data);
    PlanAt(db, data, o, Accounts);
    forall c | c in OutcomeOf(db, data, o).report.conflicts
      ensures c.sqliteId !in Ids(RowsOf(Merged(db, data, o), Accounts))
    {
      ConflictStaysOut(rows, table, known, c);
    }
  }

  /** The first row whose id stood earlier with another email. */
  lemma {:induction false} FirstDeparture(rows: seq<Row>, n: nat) returns (i: nat, j: nat)
    requires n <= |rows| && !OneAddressPerId(rows[..n])
    ensures i < j < n && rows[i].id == rows[j].id && Norm(rows[i].email) != Norm(rows[j].email)
    ensures forall m :: 0 <= m < j && rows[m].id == rows[i].id ==> Norm(rows[m].email) == Norm(rows[i].email)
  {
    if !OneAddressPerId(rows[..n - 1]) {
      i, j := FirstDeparture(rows, n - 1);
    } else {
      var front := rows[..n];
      i, j :| 0 <= i < j < n && front[i].id == front[j].id && Norm(front[i].email) != Norm(front[j].email);
      EarlierAgree(rows, n - 1, i);
    }
  }

  lemma EarlierAgree(rows: seq<Row>, n: nat, i: nat)
    requires i < n < |rows| && OneAddressPerId(rows[..n])
    ensures forall m :: 0 <= m < n && rows[m].id == rows[i].id ==> Norm(rows[m].email) == Norm(rows[i].email)
  {
    var front := rows[..n];
    forall m | 0 <= m < n && rows[m].id == rows[i].id ensures Norm(rows[m].email) == Norm(rows[i].email) {
      assert front[m] == rows[m] && front[i] == rows[i];
    }
  }

  /** A source reports the same conflicts again after every merge into every target exactly
      when no id of it stands earlier and again later with another email. */
  lemma ConflictsRepeatExactly(data: Db)
    requires Accounts in data
    ensures OneAddressPerId(data[Accounts])
            <==> forall db: Db, o: Options :: Commits(db, data, o) && o.force && !o.preferSource
                     ==> ConflictsAgain(db, data, o)
  {
    if OneAddressPerId(data[Accounts]) {
      forall db: Db, o: Options | Commits(db, data, o) && o.force && !o.preferSource
        ensures ConflictsAgain(db, data, o)
      {
        OneAddressConflictsAgain(db, data, o);
      }
    } else {
      var rows := data[Accounts];
      assert rows[..|rows|] == rows;
      var i, j := FirstDeparture(rows, |rows|);
      var live, o := RepeatedIdForgets(data, i, j);
      assert !ConflictsAgain(TargetFor(data, live), data, o);
    }
  }
}
