/** For which account ids parking an address keeps the emails of a target distinct
    (backend/scripts/migrate_accounts_to_postgres.py:301-346). */
module MergeConstraints {
  import opened Text
  import opened AccountsTables
  import opened EmailParking
  import opened Displacement
  import opened AccountsMerge
  import opened MergeGuarantees
  import opened LiveCrowd

  /** Source rows ask for no address of another account but those of this one. */
  ghost predicate OnlyInWay(accounts: seq<Row>, rows: seq<Row>, id: string) {
    forall r, i :: r in accounts && 0 <= i < |rows| && Norm(rows[i].email) == Norm(r.email) && rows[i].id != r.id
                   ==> r.id == id
  }

  ghost predicate KeptSound(db: Db, data: Db, o: Options) {
    !OutcomeOf(db, data, o).ConstraintViolation? && SoundDb(Merged(db, data, o))
  }

  /** An account, another that holds its parking address but for letter case, and a
      source row that asks for its email. */
  ghost predicate Trap(live: seq<Row>, row: Row, id: string) {
    && |live| == 2 && live[0].id == id && live[1].id != id && row.id != id && row.id != ""
    && Norm(live[0].email) == Norm(row.email) != ""
    && Norm(live[1].email) == live[1].email == Norm(DisplacedEmailFor(id)) != Norm(row.email)
    && DisplacedEmailFor(id) !in {Norm(row.email), live[1].email, live[0].email}
  }

  lemma {:induction false} TrapOwners(live: seq<Row>, row: Row, id: string)
    requires id != "" && Trap(live, row, id)
    ensures InTheWay(Owners(live), row) == id && Parked(id, Owners(live).Keys) == DisplacedEmailFor(id)
  {
    assert live == [live[0]] + [live[1]];
    OwnersOne(live[0]);
    OwnersAppend([live[0]], live[1]);
    assert Candidate(id, 0) !in Owners(live).Keys;
  }

  lemma TrapHeld(live: seq<Row>, row: Row, id: string)
    requires Trap(live, row, id)
    ensures !HeldByOther(live, id, DisplacedEmailFor(id))
    ensures var now := SetEmail(live, id, DisplacedEmailFor(id));
            |now| == 2 && now[0].email == DisplacedEmailFor(id) && now[1] == live[1]
  {
  }

  /** The parked address is free as written, so the update goes through; yet it is the
      other account's. */
  lemma TrapCloses(live: seq<Row>, row: Row, id: string)
    requires id != "" && Trap(live, row, id)
    ensures var st := MoveRows(StartMoving(live), [row], false);
            !st.failed && |st.accounts| == 2 && st.accounts[0].email == DisplacedEmailFor(id)
                && st.accounts[1] == live[1]
  {
    OneMove(StartMoving(live), row, false);
    TrapOwners(live, row, id);
    TrapHeld(live, row, id);
  }

  lemma TrapBreaks(db: Db, data: Db, o: Options, id: string)
    requires id != "" && o == Options(true, false, true) && db.Keys == data.Keys == {Accounts}
    requires |data[Accounts]| == 1 && Trap(db[Accounts], data[Accounts][0], id)
    ensures Commits(db, data, o) && !SoundDb(Merged(db, data, o))
  {
    var live, row := db[Accounts], data[Accounts][0];
    assert data[Accounts] == [row];
    TrapCloses(live, row, id);
    PlanAt(db, data, o, Accounts);
    var after := Merged(db, data, o)[Accounts];
    assert Norm(after[0].email) == Norm(after[1].email);
    assert !Sound(Accounts, after);
  }

  lemma TwoSound(a: Row, b: Row)
    requires a.id != b.id && Norm(a.email) != Norm(b.email)
    ensures Sound(Accounts, [a, b])
  {
    assert PrimaryKey(Accounts, a)[0] != PrimaryKey(Accounts, b)[0];
    assert a.email != b.email;
  }

  lemma TrapInWay(live: seq<Row>, row: Row, id: string)
    requires Trap(live, row, id)
    ensures OnlyInWay(live, [row], id)
  {
  }

  /** Such a target and such a source, for an id with an upper-case letter. */
  lemma SetTrap(id: string) returns (live: seq<Row>, row: Row)
    requires !LowerId(id)
    ensures Sound(Accounts, live) && Trap(live, row, id)
  {
    var d := DisplacedEmailFor(id);
    var e, other := Parked("x", {d, Norm(d)}), Parked("x", {id});
    ParkedX({d, Norm(d)});
    ParkedX({id});
    CandidateIsParkedAddress("x", FirstFree("x", {id}, 0));
    CandidateIsParkedAddress("x", FirstFree("x", {d, Norm(d)}, 0));
    NormTwice(d);
    UpperIsNotNormal(id);
    live, row := [Someone(id, e), Someone(other, Norm(d))], Someone(other, e);
    TwoSound(live[0], live[1]);
  }

  lemma LowerKeeps(db: Db, data: Db, o: Options, id: string)
    requires LowerId(id) && SoundDb(db) && OnlyInWay(RowsOf(db, Accounts), RowsOf(data, Accounts), id)
    ensures KeptSound(db, data, o)
  {
    KeepsConstraints(db, data, o);
  }

  lemma UpperBreaks(id: string) returns (db: Db, data: Db, o: Options)
    requires id != "" && !LowerId(id)
    ensures SoundDb(db) && OnlyInWay(RowsOf(db, Accounts), RowsOf(data, Accounts), id) && !KeptSound(db, data, o)
  {
    var live, row := SetTrap(id);
    TrapInWay(live, row, id);
    db, data, o := map[Accounts := live], map[Accounts := [row]], Options(true, false, true);
    TrapBreaks(db, data, o, id);
  }

  /** Every merge that finds at most this account in a source row's way keeps the target's
      constraints exactly when its id has no upper-case letter. */
  lemma KeepsConstraintsExactly(id: string)
    requires id != ""
    ensures LowerId(id)
            <==> forall db: Db, data: Db, o: Options ::
                   SoundDb(db) && OnlyInWay(RowsOf(db, Accounts), RowsOf(data, Accounts), id) ==> KeptSound(db, data, o)
  {
    if LowerId(id) {
      forall db: Db, data: Db, o: Options | SoundDb(db) && OnlyInWay(RowsOf(db, Accounts), RowsOf(data, Accounts), id)
        ensures KeptSound(db, data, o)
      {
        LowerKeeps(db, data, o, id);
      }
    } else {
      var db, data, o := UpperBreaks(id);
    }
  }
}
