/** Two families of inputs on which the dry run and the real run part
    (backend/scripts/migrate_accounts_to_postgres.py:301-346, 495-544). */
module DryRunInputs {
  import opened Text
  import opened AccountsTables
  import opened EmailParking
  import opened Displacement
  import opened MergePlan
  import opened AccountsMerge
  import opened MergeGuarantees
  import opened MergeRepeat
  import opened DryRun

  /** An account, and a row of another with its address. */
  ghost predicate Rival(a: Row, b: Row) {
    && a.id != "" && LowerId(a.id) && b.id != "" && b.id != a.id
    && Norm(a.email) == Norm(b.email) != ""
  }

  lemma OneParked(a: Row, b: Row)
    requires Rival(a, b)
    ensures var st := MoveRows(StartMoving([a]), [b], true);
            && !MoveRows(StartMoving([a]), [b], false).failed
            && |st.displaced| == 1 && st.displaced[0].postgresId == a.id
            && Norm(st.displaced[0].displacedEmail) != Norm(a.email)
  {
    OwnersOne(a);
    OneMove(StartMoving([a]), b, true);
    OneMove(StartMoving([a]), b, false);
    assert InTheWay(Owners([a]), b) == a.id;
    CandidateNorm(a.id, FirstFree(a.id, Owners([a]).Keys, 0));
  }

  lemma {:induction false} OneAsParked(a: Row, displaced: seq<Displaced>)
    requires |displaced| == 1 && displaced[0].postgresId == a.id && Norm(displaced[0].displacedEmail) != Norm(a.email)
    ensures Norm(a.email) in Owners([a]) && Norm(a.email) !in Owners(AsParked([a], displaced))
  {
    assert displaced[..0] == [];
    OwnersOne(a);
    OwnersOne(a.(email := displaced[0].displacedEmail));
    assert AsParked([a], displaced) == [a.(email := displaced[0].displacedEmail)];
  }

  lemma ForcedMerge(db: Db, data: Db, o: Options)
    requires db.Keys == data.Keys == {Accounts} && o.force && !o.dryRun && o.preferSource
    requires !MoveRows(StartMoving(db[Accounts]), data[Accounts], false).failed
    ensures Commits(db, data, o)
    ensures Moved(db, data, o.(dryRun := true)) == MoveRows(StartMoving(db[Accounts]), data[Accounts], true)
  {
  }

  lemma {:induction false} OneSound(a: Row)
    ensures Sound(Accounts, [a])
  {
  }

  /** A new account with the address of the only live one: the dry run reports a conflict,
      the real run parks the live account and takes the new one in. */
  lemma DryRunMisleads(db: Db, data: Db, o: Options, a: Row, b: Row) returns (c: EmailConflict)
    requires Rival(a, b) && db == map[Accounts := [a]] && data == map[Accounts := [b]]
    requires o.force && !o.dryRun && o.preferSource
    ensures SoundDb(db) && Commits(db, data, o)
    ensures c in ReportOf(db, data, o.(dryRun := true)).conflicts && c !in ReportOf(db, data, o).conflicts
  {
    OneParked(a, b);
    OneSound(a);
    ForcedMerge(db, data, o);
    OneAsParked(a, Moved(db, data, o.(dryRun := true)).displaced);
    NobodyElse(db, data, o, [a], [b], 0);
    var i: nat;
    i, c := DryRunFalse(db, data, o);
    OwnersOne(a);
    HeldByNamed(Owners(RowsOf(db, Accounts)), Norm(c.sqliteEmail));
  }

  lemma HeldByNamed(owners: map<string, string>, e: string)
    requires e in owners && owners[e] != ""
    ensures NewcomerFate(owners, e).Conflicting?
  {
  }

  /** A row for an account that is not live, whose address changes hands. */
  lemma {:induction false} NobodyElse(db: Db, data: Db, o: Options, live: seq<Row>, rows: seq<Row>, i: nat)
    requires Accounts in db && db[Accounts] == live && Accounts in data && data[Accounts] == rows
    requires i < |rows| && DistinctIds(rows) && rows[i].id !in Ids(live)
    requires Norm(rows[i].email) in ChangedEmails(db, data, o)
    ensures !NobodyNew(db, data, o)
  {
    DistinctIdsAreLive(rows, live, KnownBefore(db, data), i);
  }

  /** Two live accounts, the first with an upper-case letter in its id; the second asks for
      the first one's address, and a new account for the one the first is parked at, but for
      letter case. */
  ghost predicate UpperTrap(a: Row, l: Row, b: Row, t: Row) {
    && a.id != "" && !LowerId(a.id) && b.id == l.id != "" && a.id != b.id && t.id !in {"", a.id, b.id}
    && Norm(a.email) == Norm(b.email) != "" && Norm(t.email) == Norm(DisplacedEmailFor(a.id)) != Norm(a.email)
    && Norm(l.email) !in {Norm(a.email), Norm(t.email)}
  }

  lemma {:induction false} TwoOwners(a: Row, l: Row)
    ensures Owners([a, l]) == map[Norm(a.email) := a.id, Norm(l.email) := l.id]
  {
    assert [a, l] == [a] + [l];
    OwnersOne(a);
    OwnersAppend([a], l);
  }

  /** An address with an upper-case letter is none that is compared. */
  lemma FreeAsWritten(id: string, taken: set<string>)
    requires !LowerId(id) && forall e :: e in taken ==> IsLower(e)
    ensures Parked(id, taken) == DisplacedEmailFor(id)
  {
    UpperIsNotNormal(id);
    assert Candidate(id, 0) !in taken;
  }

  lemma TwoHolders(a: Row, l: Row, id: string, p: string)
    requires a.id == id && l.email != p
    ensures !HeldByOther([a, l], id, p)
  {
  }

  lemma UpperOwners(a: Row, l: Row, b: Row, t: Row)
    requires UpperTrap(a, l, b, t)
    ensures Owners([a, l]) == map[Norm(a.email) := a.id, Norm(l.email) := l.id]
    ensures InTheWay(Owners([a, l]), b) == a.id && Parked(a.id, Owners([a, l]).Keys) == DisplacedEmailFor(a.id)
    ensures !HeldByOther([a, l], a.id, DisplacedEmailFor(a.id))
  {
    TwoOwners(a, l);
    assert IsLower(Norm(a.email)) && IsLower(Norm(l.email));
    FreeAsWritten(a.id, Owners([a, l]).Keys);
    TwoHolders(a, l, a.id, DisplacedEmailFor(a.id));
  }

  /** The first account is parked, and nobody else. */
  lemma UpperMoves(a: Row, l: Row, b: Row, t: Row)
    requires UpperTrap(a, l, b, t)
    ensures var parked, e := DisplacedEmailFor(a.id), Norm(a.email);
            && !MoveRows(StartMoving([a, l]), [b, t], false).failed
            && MoveRows(StartMoving([a, l]), [b, t], true).displaced == [Displaced(a.id, e, parked, b.id)]
  {
    UpperOwners(a, l, b, t);
    UpperFirst(a, l, b, t, true);
    UpperFirst(a, l, b, t, false);
    UpperSecond(a, l, b, t, true);
    UpperSecond(a, l, b, t, false);
  }

  lemma UpperFirst(a: Row, l: Row, b: Row, t: Row, dryRun: bool)
    requires UpperTrap(a, l, b, t)
    ensures var st := MoveStep(StartMoving([a, l]), b, dryRun);
            && !st.failed && st.displaced == [Displaced(a.id, Norm(a.email), DisplacedEmailFor(a.id), b.id)]
            && st.owners.Keys == {DisplacedEmailFor(a.id), Norm(l.email)}
  {
    UpperOwners(a, l, b, t);
  }

  lemma {:induction false} UpperSecond(a: Row, l: Row, b: Row, t: Row, dryRun: bool)
    requires UpperTrap(a, l, b, t)
    ensures MoveRows(StartMoving([a, l]), [b, t], dryRun) == MoveStep(StartMoving([a, l]), b, dryRun)
  {
    var st := MoveStep(StartMoving([a, l]), b, dryRun);
    UpperFirst(a, l, b, t, dryRun);
    UpperIsNotNormal(a.id);
    TwoMoves(StartMoving([a, l]), b, t, dryRun);
    NoMove(st, t, dryRun);
  }

  lemma {:induction false} TwoMoves(start: Moving, b: Row, t: Row, dryRun: bool)
    ensures MoveRows(start, [b, t], dryRun) == MoveStep(MoveStep(start, b, dryRun), t, dryRun)
  {
    OneMove(start, b, dryRun);
    assert [b, t][..1] == [b] && [b, t][1] == t;
  }

  lemma NoMove(st: Moving, row: Row, dryRun: bool)
    requires Norm(row.email) !in st.owners
    ensures MoveStep(st, row, dryRun) == st
  {
  }

  lemma {:induction false} UpperAsParked(a: Row, l: Row, b: Row, t: Row, displaced: seq<Displaced>)
    requires UpperTrap(a, l, b, t)
    requires displaced == [Displaced(a.id, Norm(a.email), DisplacedEmailFor(a.id), b.id)]
    ensures Norm(t.email) in Owners(AsParked([a, l], displaced)) && Norm(t.email) !in Owners([a, l])
  {
    var now := a.(email := DisplacedEmailFor(a.id));
    UpperOwners(a, l, b, t);
    assert displaced[..0] == [];
    assert AsParked([a, l], displaced) == [now] + [l];
    OwnersOne(now);
    OwnersAppend([now], l);
  }

  /** The dry run inserts the new account, the real run reports it as a conflict. */
  lemma DryRunMisses(db: Db, data: Db, o: Options, a: Row, l: Row, b: Row, t: Row) returns (c: EmailConflict)
    requires UpperTrap(a, l, b, t) && db == map[Accounts := [a, l]] && data == map[Accounts := [b, t]]
    requires o.force && !o.dryRun && o.preferSource
    ensures Commits(db, data, o) && c.sqliteId == t.id
    ensures c !in ReportOf(db, data, o.(dryRun := true)).conflicts && c in ReportOf(db, data, o).conflicts
  {
    UpperMoves(a, l, b, t);
    ForcedMerge(db, data, o);
    UpperAsParked(a, l, b, t, Moved(db, data, o.(dryRun := true)).displaced);
    TwoRowIds(a, l, b, t);
    NobodyElse(db, data, o, [a, l], [b, t], 1);
    var i: nat;
    i, c := DryRunFalse(db, data, o);
    DistinctIdsAreLive([b, t], [a, l], KnownBefore(db, data), i);
    assert i == 1;
  }

  lemma TwoRowIds(a: Row, l: Row, b: Row, t: Row)
    requires UpperTrap(a, l, b, t)
    ensures DistinctIds([b, t]) && b.id in Ids([a, l]) && t.id !in Ids([a, l])
  {
    assert l in [a, l] && forall r :: r in [a, l] ==> r == a || r == l;
  }
}
