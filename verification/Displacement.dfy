/** Freeing the emails a backup needs, without deleting live accounts
    (backend/scripts/migrate_accounts_to_postgres.py:307-346). */
module Displacement {
  import opened Text
  import opened AccountsTables
  import opened EmailParking

  datatype Displaced = Displaced(postgresId: string, originalEmail: string, displacedEmail: string, sourceId: string)

  /** The loop's state: who owns which address, every address ever seen, the live
      rows, what was moved, and whether the database refused an update. */
  datatype Moving = Moving(owners: map<string, string>, existing: set<string>, accounts: seq<Row>,
                           displaced: seq<Displaced>, failed: bool)

  function StartMoving(accounts: seq<Row>): Moving {
    Moving(Owners(accounts), Owners(accounts).Keys, accounts, [], false)
  }

  /** `UPDATE accounts SET email = .. WHERE id = ..`. */
  function SetEmail(rows: seq<Row>, id: string, email: string): seq<Row> {
    seq(|rows|, i requires 0 <= i < |rows| => if rows[i].id == id then rows[i].(email := email) else rows[i])
  }

  /** The database refuses an email that another row holds literally. */
  predicate HeldByOther(rows: seq<Row>, id: string, email: string) {
    exists r :: r in rows && r.email == email && r.id != id
  }

  /** The account that stands in a source row's way, if any ("" when none does). */
  function InTheWay(owners: map<string, string>, row: Row): string {
    var email := Norm(row.email);
    if row.id == "" || email == "" || email !in owners || owners[email] == row.id then "" else owners[email]
  }

  function MoveStep(st: Moving, row: Row, dryRun: bool): Moving {
    var owner := InTheWay(st.owners, row);
    if st.failed || owner == "" then st
    else
      var email, parked := Norm(row.email), Parked(owner, st.existing);
      if !dryRun && HeldByOther(st.accounts, owner, parked) then st.(failed := true)
      else Moving((st.owners - {email})[parked := owner], st.existing + {parked},
                  if dryRun then st.accounts else SetEmail(st.accounts, owner, parked),
                  st.displaced + [Displaced(owner, email, parked, row.id)], false)
  }

  function MoveRows(st: Moving, rows: seq<Row>, dryRun: bool): Moving {
    if rows == [] then st else MoveStep(MoveRows(st, rows[..|rows| - 1], dryRun), rows[|rows| - 1], dryRun)
  }

  /** All but the emails of the listed accounts is as before. */
  ghost predicate OnlyEmailsMoved(before: seq<Row>, after: seq<Row>, displaced: seq<Displaced>) {
    && |after| == |before|
    && forall i :: 0 <= i < |before| ==>
         || after[i] == before[i]
         || (after[i] == before[i].(email := after[i].email)
             && exists d :: d in displaced && d.postgresId == before[i].id)
  }

  lemma {:induction false} MoveFrame(accounts: seq<Row>, rows: seq<Row>, dryRun: bool)
    ensures OnlyEmailsMoved(accounts, MoveRows(StartMoving(accounts), rows, dryRun).accounts,
                            MoveRows(StartMoving(accounts), rows, dryRun).displaced)
    ensures dryRun ==> MoveRows(StartMoving(accounts), rows, dryRun).accounts == accounts
    ensures dryRun ==> !MoveRows(StartMoving(accounts), rows, dryRun).failed
  {
    if rows != [] {
      MoveFrame(accounts, rows[..|rows| - 1], dryRun);
      var st := MoveRows(StartMoving(accounts), rows[..|rows| - 1], dryRun);
      var next := MoveStep(st, rows[|rows| - 1], dryRun);
      if next.displaced != st.displaced {
        var d := next.displaced[|next.displaced| - 1];
        assert d in next.displaced;
        forall e | e in st.displaced ensures e in next.displaced {}
      }
    }
  }

  lemma FrameIds(before: seq<Row>, after: seq<Row>, displaced: seq<Displaced>)
    requires OnlyEmailsMoved(before, after, displaced)
    ensures Ids(after) == Ids(before)
    ensures PrimaryKeys(Accounts, after) == PrimaryKeys(Accounts, before)
  {
    SameIds(before, after);
    SameIds(after, before);
  }

  lemma SameIds(a: seq<Row>, b: seq<Row>)
    requires |a| == |b| && forall i :: 0 <= i < |a| ==> a[i].id == b[i].id
    ensures Ids(a) <= Ids(b) && PrimaryKeys(Accounts, a) <= PrimaryKeys(Accounts, b)
  {
    forall r | r in a ensures r.id in Ids(b) && PrimaryKey(Accounts, r) in PrimaryKeys(Accounts, b) {
      var i :| 0 <= i < |a| && a[i] == r;
      assert b[i] in b && PrimaryKey(Accounts, b[i]) == PrimaryKey(Accounts, r);
    }
  }

  /** What the database enforces survives every accepted update. */
  lemma {:induction false} MoveKeepsEnforced(accounts: seq<Row>, rows: seq<Row>, dryRun: bool)
    requires Enforced(Accounts, accounts)
    ensures Enforced(Accounts, MoveRows(StartMoving(accounts), rows, dryRun).accounts)
  {
    if rows != [] {
      MoveKeepsEnforced(accounts, rows[..|rows| - 1], dryRun);
      var st, row := MoveRows(StartMoving(accounts), rows[..|rows| - 1], dryRun), rows[|rows| - 1];
      var next := MoveStep(st, row, dryRun);
      if next.accounts != st.accounts {
        SetEmailEnforced(st.accounts, InTheWay(st.owners, row), Parked(InTheWay(st.owners, row), st.existing));
      }
    }
  }

  lemma SetEmailEnforced(rows: seq<Row>, id: string, email: string)
    requires Enforced(Accounts, rows) && !HeldByOther(rows, id, email)
    ensures Enforced(Accounts, SetEmail(rows, id, email))
  {
    var now := SetEmail(rows, id, email);
    forall i, j | 0 <= i < j < |rows|
      ensures now[i].email != now[j].email && now[i].id != now[j].id
    {
      assert PrimaryKey(Accounts, rows[i]) != PrimaryKey(Accounts, rows[j]);
      assert RawUnique(Accounts, rows[i]) != RawUnique(Accounts, rows[j]);
      assert rows[i] in rows && rows[j] in rows;
    }
  }

  /** Every account whose address a source row of another account asks for has an id
      without upper-case letters. */
  ghost predicate LowerInWay(accounts: seq<Row>, rows: seq<Row>) {
    forall r, i :: r in accounts && 0 <= i < |rows| && Norm(rows[i].email) == Norm(r.email) && rows[i].id != r.id
                   ==> LowerId(r.id)
  }

  ghost predicate DisplacedLower(displaced: seq<Displaced>) { forall d :: d in displaced ==> LowerId(d.postgresId) }

  /** The loop's bookkeeping is the truth about the rows it has already updated. */
  ghost predicate Accurate(st: Moving) {
    && !st.failed
    && Sound(Accounts, st.accounts)
    && st.owners == Owners(st.accounts)
    && st.owners.Keys <= st.existing
  }

  lemma {:induction false} NotHeld(rows: seq<Row>, id: string, email: string)
    requires Norm(email) == email && email !in Owners(rows)
    ensures !HeldByOther(rows, id, email)
  {
    OwnersKeys(rows);
    forall r | r in rows ensures r.email != email {
      assert UniqueKey(Accounts, r) in UniqueKeys(Accounts, rows);
    }
  }

  /** One move of an address, seen through Owners. */
  lemma {:induction false} SetEmailOwners(rows: seq<Row>, id: string, email: string, parked: string)
    requires Sound(Accounts, rows)
    requires email in Owners(rows) && Owners(rows)[email] == id
    requires parked !in Owners(rows) && Norm(parked) == parked
    ensures Sound(Accounts, SetEmail(rows, id, parked))
    ensures Owners(SetEmail(rows, id, parked)) == (Owners(rows) - {email})[parked := id]
  {
    var now := SetEmail(rows, id, parked);
    OwnersKeys(rows);
    OwnerHasRow(rows, email);
    var k :| 0 <= k < |rows| && Norm(rows[k].email) == email && rows[k].id == id;
    forall i | 0 <= i < |rows| ensures Norm(rows[i].email) in Owners(rows) {
      assert rows[i] in rows;
      assert UniqueKey(Accounts, rows[i]) in UniqueKeys(Accounts, rows);
    }
    forall i | 0 <= i < |rows| && i != k
      ensures now[i] == rows[i] && Norm(rows[i].email) != email && rows[i].id != id
    {
      assert PrimaryKey(Accounts, rows[i]) != PrimaryKey(Accounts, rows[k]);
    }
    assert now[k] == rows[k].(email := parked);
    NotHeld(rows, id, parked);
    SetEmailEnforced(rows, id, parked);
    MovedOwners(rows, now, k, email, parked);
  }

  lemma MovedDistinct(rows: seq<Row>, now: seq<Row>, k: nat, parked: string)
    requires k < |rows| == |now| && Sound(Accounts, rows)
    requires forall i :: 0 <= i < |rows| && i != k ==> now[i] == rows[i]
    requires Norm(now[k].email) == parked && forall i :: 0 <= i < |rows| ==> Norm(rows[i].email) != parked
    ensures forall i, j :: 0 <= i < j < |now| ==> Norm(now[i].email) != Norm(now[j].email)
  {
    forall i, j | 0 <= i < j < |now| ensures Norm(now[i].email) != Norm(now[j].email) {
      assert Norm(rows[i].email) != Norm(rows[j].email);
    }
  }

  lemma {:induction false} MovedOwnerAt(rows: seq<Row>, now: seq<Row>, k: nat, i: nat, parked: string)
    requires k < |rows| == |now| && i < |rows| && Sound(Accounts, rows)
    requires i != k ==> now[i] == rows[i]
    requires now[k] == rows[k].(email := parked) && Norm(parked) == parked
    requires forall j :: 0 <= j < |rows| ==> Norm(rows[j].email) != parked
    ensures var want := (Owners(rows) - {Norm(rows[k].email)})[parked := rows[k].id];
            Norm(now[i].email) in want && want[Norm(now[i].email)] == now[i].id
  {
    OwnersExact(rows, i);
    if i < k {
      assert Norm(rows[i].email) != Norm(rows[k].email);
    } else if k < i {
      assert Norm(rows[k].email) != Norm(rows[i].email);
    }
  }

  lemma {:induction false} MovedOwnerNew(rows: seq<Row>, now: seq<Row>, k: nat, parked: string, e: string)
    requires k < |rows| == |now| && Sound(Accounts, rows)
    requires forall i :: 0 <= i < |rows| && i != k ==> now[i] == rows[i]
    requires now[k] == rows[k].(email := parked) && Norm(parked) == parked
    requires forall i :: 0 <= i < |rows| ==> Norm(rows[i].email) != parked
    requires e in Owners(now)
    ensures var want := (Owners(rows) - {Norm(rows[k].email)})[parked := rows[k].id];
            e in want && want[e] == Owners(now)[e]
  {
    OwnerHasRow(now, e);
    var i :| 0 <= i < |now| && Norm(now[i].email) == e && now[i].id == Owners(now)[e];
    MovedOwnerAt(rows, now, k, i, parked);
  }

  lemma {:induction false} MovedOwners(rows: seq<Row>, now: seq<Row>, k: nat, email: string, parked: string)
    requires k < |rows| == |now| && Sound(Accounts, rows)
    requires forall i :: 0 <= i < |rows| && i != k ==> now[i] == rows[i]
    requires now[k] == rows[k].(email := parked) && Norm(parked) == parked && Norm(rows[k].email) == email
    requires forall i :: 0 <= i < |rows| ==> Norm(rows[i].email) != parked
    ensures forall i, j :: 0 <= i < j < |now| ==> Norm(now[i].email) != Norm(now[j].email)
    ensures Owners(now) == (Owners(rows) - {email})[parked := rows[k].id]
  {
    MovedDistinct(rows, now, k, parked);
    var want := (Owners(rows) - {email})[parked := rows[k].id];
    forall e | e in Owners(now) ensures e in want && want[e] == Owners(now)[e] {
      MovedOwnerNew(rows, now, k, parked, e);
    }
    forall e | e in want ensures e in Owners(now) {
      MovedOwnerKept(rows, now, k, email, parked, e);
    }
    assert Owners(now).Keys == want.Keys;
  }

  lemma {:induction false} MovedOwnerKept(rows: seq<Row>, now: seq<Row>, k: nat, email: string, parked: string,
                                          e: string)
    requires k < |rows| == |now|
    requires forall i, j :: 0 <= i < j < |now| ==> Norm(now[i].email) != Norm(now[j].email)
    requires forall i :: 0 <= i < |rows| && i != k ==> now[i] == rows[i]
    requires Norm(now[k].email) == parked && Norm(rows[k].email) == email
    requires e == parked || (e != email && e in Owners(rows))
    ensures e in Owners(now)
  {
    if e == parked {
      OwnersExact(now, k);
    } else {
      OwnerHasRow(rows, e);
      var i :| 0 <= i < |rows| && Norm(rows[i].email) == e;
      OwnersExact(now, i);
    }
  }

  /** The address picked for an account in the way is normal and nobody's. */
  lemma ParkedIsFree(st: Moving, email: string)
    requires Accurate(st) && email in st.owners && LowerId(st.owners[email])
    ensures var parked := Parked(st.owners[email], st.existing);
            Norm(parked) == parked && parked !in st.owners && !HeldByOther(st.accounts, st.owners[email], parked)
  {
    var owner := st.owners[email];
    var parked := Parked(owner, st.existing);
    CandidateNorm(owner, FirstFree(owner, st.existing, 0));
    NotHeld(st.accounts, owner, parked);
  }

  lemma MoveStepAccurate(st: Moving, row: Row)
    requires Accurate(st) && (InTheWay(st.owners, row) != "" ==> LowerId(InTheWay(st.owners, row)))
    ensures Accurate(MoveStep(st, row, false))
  {
    var owner := InTheWay(st.owners, row);
    if owner != "" {
      var email, parked := Norm(row.email), Parked(owner, st.existing);
      ParkedIsFree(st, email);
      SetEmailOwners(st.accounts, owner, email, parked);
    }
  }

  /** Whoever is in the way holds the address from the start, or was moved there. */
  lemma {:induction false} InTheWayIsLower(before: seq<Row>, st: Moving, rows: seq<Row>, row: Row)
    requires OnlyEmailsMoved(before, st.accounts, st.displaced) && st.owners == Owners(st.accounts)
    requires row in rows && LowerInWay(before, rows) && DisplacedLower(st.displaced)
    ensures InTheWay(st.owners, row) != "" ==> LowerId(InTheWay(st.owners, row))
  {
    var owner := InTheWay(st.owners, row);
    if owner != "" {
      OwnerHasRow(st.accounts, Norm(row.email));
      var k :| 0 <= k < |st.accounts| && Norm(st.accounts[k].email) == Norm(row.email) && st.accounts[k].id == owner;
      var i :| 0 <= i < |rows| && rows[i] == row;
      assert before[k] in before;
    }
  }

  lemma MoveStepLower(st: Moving, row: Row)
    requires DisplacedLower(st.displaced) && (InTheWay(st.owners, row) != "" ==> LowerId(InTheWay(st.owners, row)))
    ensures DisplacedLower(MoveStep(st, row, false).displaced)
  {
  }

  lemma {:induction false} LowerInWayFront(accounts: seq<Row>, rows: seq<Row>)
    requires rows != [] && LowerInWay(accounts, rows)
    ensures LowerInWay(accounts, rows[..|rows| - 1])
  {
    assert forall i :: 0 <= i < |rows| - 1 ==> rows[..|rows| - 1][i] == rows[i];
  }

  /** When those in the way have lower-case ids the database never refuses a move, emails
      stay distinct after normalisation, and the bookkeeping stays exact. */
  lemma {:induction false} MoveRowsAccurate(accounts: seq<Row>, rows: seq<Row>)
    requires Sound(Accounts, accounts) && LowerInWay(accounts, rows)
    ensures Accurate(MoveRows(StartMoving(accounts), rows, false))
    ensures DisplacedLower(MoveRows(StartMoving(accounts), rows, false).displaced)
  {
    if rows != [] {
      var front, row := rows[..|rows| - 1], rows[|rows| - 1];
      LowerInWayFront(accounts, rows);
      MoveRowsAccurate(accounts, front);
      MoveRowsLast(StartMoving(accounts), rows, false);
      var st := MoveRows(StartMoving(accounts), front, false);
      MoveFrame(accounts, front, false);
      InTheWayIsLower(accounts, st, rows, row);
      MoveStepAccurate(st, row);
      MoveStepLower(st, row);
    }
  }

  lemma {:induction false} MoveRowsLast(st: Moving, rows: seq<Row>, dryRun: bool)
    requires rows != []
    ensures MoveRows(st, rows, dryRun) == MoveStep(MoveRows(st, rows[..|rows| - 1], dryRun), rows[|rows| - 1], dryRun)
  {
  }

  lemma {:induction false} MoveRowsNext(start: Moving, rows: seq<Row>, i: nat, dryRun: bool)
    requires i < |rows|
    ensures MoveRows(start, rows[..i + 1], dryRun) == MoveStep(MoveRows(start, rows[..i], dryRun), rows[i], dryRun)
  {
    assert rows[..i + 1][..i] == rows[..i];
  }

  lemma {:induction false} OneMove(start: Moving, row: Row, dryRun: bool)
    ensures MoveRows(start, [row], dryRun) == MoveStep(start, row, dryRun)
  {
    assert [row][..0] == [];
  }

  // ---- what the loop comes to, whatever the ids ------------------------------------------

  lemma {:induction false} OwnersExist(accounts: seq<Row>, rows: seq<Row>, dryRun: bool)
    ensures var st := MoveRows(StartMoving(accounts), rows, dryRun);
            st.owners.Keys <= st.existing && Owners(accounts).Keys <= st.existing
  {
    if rows != [] {
      OwnersExist(accounts, rows[..|rows| - 1], dryRun);
    }
  }

  predicate Clear(st: Moving, other: Row) { InTheWay(st.owners, other) == "" }

  predicate GivenAway(st: Moving, e: string) { exists d :: d in st.displaced && d.displacedEmail == e }

  /** Nobody is in this row's way, or an account was parked at the very address it asks for. */
  predicate Freed(st: Moving, other: Row) { Clear(st, other) || GivenAway(st, Norm(other.email)) }

  /** A move clears the way of the row it is made for, and puts an account in the way of
      another only if that row asks for the very address it parks at. */
  lemma MoveStepFrees(st: Moving, row: Row, other: Row, dryRun: bool)
    requires st.owners.Keys <= st.existing && !MoveStep(st, row, dryRun).failed
    requires other == row || Freed(st, other)
    ensures Freed(MoveStep(st, row, dryRun), other)
  {
    var owner, next := InTheWay(st.owners, row), MoveStep(st, row, dryRun);
    if owner != "" {
      var d := next.displaced[|next.displaced| - 1];
      assert d in next.displaced && d.displacedEmail == Parked(owner, st.existing);
      assert forall x :: x in st.displaced ==> x in next.displaced;
    }
  }

  lemma FailedStays(st: Moving, row: Row, dryRun: bool)
    requires st.failed
    ensures MoveStep(st, row, dryRun).failed
  {
  }

  /** Once all source rows have been looked at, none of their emails is in the hands of
      another account any more, unless an account was parked at that very address. */
  lemma {:induction false} MoveFrees(accounts: seq<Row>, rows: seq<Row>, i: nat, dryRun: bool)
    requires i < |rows| && !MoveRows(StartMoving(accounts), rows, dryRun).failed
    ensures Freed(MoveRows(StartMoving(accounts), rows, dryRun), rows[i])
  {
    var front, last := rows[..|rows| - 1], rows[|rows| - 1];
    var st := MoveRows(StartMoving(accounts), front, dryRun);
    MoveRowsLast(StartMoving(accounts), rows, dryRun);
    OwnersExist(accounts, front, dryRun);
    if i == |front| {
      MoveStepFrees(st, last, last, dryRun);
    } else {
      if st.failed {
        FailedStays(st, last, dryRun);
      }
      assert front[i] == rows[i];
      MoveFrees(accounts, front, i, dryRun);
      MoveStepFrees(st, last, front[i], dryRun);
    }
  }

  lemma {:induction false} ParkedOnlyAtParked(accounts: seq<Row>, rows: seq<Row>, dryRun: bool, e: string)
    ensures GivenAway(MoveRows(StartMoving(accounts), rows, dryRun), e) ==> IsParkedAddress(e)
  {
    if rows != [] {
      ParkedOnlyAtParked(accounts, rows[..|rows| - 1], dryRun, e);
      var st := MoveRows(StartMoving(accounts), rows[..|rows| - 1], dryRun);
      var owner := InTheWay(st.owners, rows[|rows| - 1]);
      CandidateIsParkedAddress(owner, FirstFree(owner, st.existing, 0));
    }
  }

  /** The loop only moves accounts that are there. */
  lemma {:induction false} OwnersAreIds(accounts: seq<Row>, rows: seq<Row>, dryRun: bool, e: string)
    requires e in MoveRows(StartMoving(accounts), rows, dryRun).owners
    ensures MoveRows(StartMoving(accounts), rows, dryRun).owners[e] in Ids(accounts)
  {
    if rows == [] {
      OwnerHasRow(accounts, e);
    } else {
      var front, row := rows[..|rows| - 1], rows[|rows| - 1];
      var st := MoveRows(StartMoving(accounts), front, dryRun);
      MoveRowsLast(StartMoving(accounts), rows, dryRun);
      if e in st.owners {
        OwnersAreIds(accounts, front, dryRun, e);
      }
      if Norm(row.email) in st.owners {
        OwnersAreIds(accounts, front, dryRun, Norm(row.email));
      }
    }
  }

  /** No later move of the same account. */
  ghost predicate LastMove(displaced: seq<Displaced>, k: nat) {
    k < |displaced| && forall j :: k < j < |displaced| ==> displaced[j].postgresId != displaced[k].postgresId
  }

  ghost predicate AllAt(rows: seq<Row>, id: string, email: string) {
    forall r :: r in rows && r.id == id ==> r.email == email
  }

  lemma {:induction false} SetEmailAt(rows: seq<Row>, id: string, email: string, other: string, at: string)
    requires other == id ==> at == email
    requires other != id ==> AllAt(rows, other, at)
    ensures AllAt(SetEmail(rows, id, email), other, at)
  {
    var now := SetEmail(rows, id, email);
    forall r | r in now && r.id == other ensures r.email == at {
      var i :| 0 <= i < |now| && now[i] == r;
      assert rows[i] in rows;
    }
  }

  /** One move, as it bears on the last move of some account. */
  lemma LastMoveStep(st: Moving, row: Row, k: nat)
    requires LastMove(MoveStep(st, row, false).displaced, k)
    requires LastMove(st.displaced, k)
             ==> AllAt(st.accounts, st.displaced[k].postgresId, st.displaced[k].displacedEmail)
    ensures var next := MoveStep(st, row, false);
            AllAt(next.accounts, next.displaced[k].postgresId, next.displaced[k].displacedEmail)
  {
    var owner, next := InTheWay(st.owners, row), MoveStep(st, row, false);
    var parked := Parked(owner, st.existing);
    if next.displaced != st.displaced {
      assert next.displaced == st.displaced + [Displaced(owner, Norm(row.email), parked, row.id)];
      if k < |st.displaced| {
        assert next.displaced[|st.displaced|].postgresId == owner;
        LastMoveFront(st.displaced, next.displaced[|st.displaced|], k);
        SetEmailAt(st.accounts, owner, parked, st.displaced[k].postgresId, st.displaced[k].displacedEmail);
      } else {
        SetEmailAt(st.accounts, owner, parked, owner, parked);
      }
    }
  }

  lemma LastMoveFront(displaced: seq<Displaced>, d: Displaced, k: nat)
    requires k < |displaced| && LastMove(displaced + [d], k)
    ensures LastMove(displaced, k) && (displaced + [d])[k] == displaced[k]
    ensures d.postgresId != displaced[k].postgresId
  {
    var all := displaced + [d];
    assert forall j :: 0 <= j < |displaced| ==> all[j] == displaced[j];
    assert all[|displaced|] == d;
  }

  lemma {:induction false} LastMoveStands(accounts: seq<Row>, rows: seq<Row>, k: nat)
    requires LastMove(MoveRows(StartMoving(accounts), rows, false).displaced, k)
    ensures var st := MoveRows(StartMoving(accounts), rows, false);
            AllAt(st.accounts, st.displaced[k].postgresId, st.displaced[k].displacedEmail)
  {
    if rows != [] {
      var front, row := rows[..|rows| - 1], rows[|rows| - 1];
      var st := MoveRows(StartMoving(accounts), front, false);
      MoveRowsLast(StartMoving(accounts), rows, false);
      if LastMove(st.displaced, k) {
        LastMoveStands(accounts, front, k);
      }
      LastMoveStep(st, row, k);
    }
  }

  lemma {:induction false} DisplacedAreIds(accounts: seq<Row>, rows: seq<Row>, dryRun: bool, k: nat)
    requires k < |MoveRows(StartMoving(accounts), rows, dryRun).displaced|
    ensures MoveRows(StartMoving(accounts), rows, dryRun).displaced[k].postgresId in Ids(accounts)
  {
    var front, row := rows[..|rows| - 1], rows[|rows| - 1];
    var st := MoveRows(StartMoving(accounts), front, dryRun);
    MoveRowsLast(StartMoving(accounts), rows, dryRun);
    if k < |st.displaced| {
      DisplacedAreIds(accounts, front, dryRun, k);
    } else {
      OwnersAreIds(accounts, front, dryRun, Norm(row.email));
    }
  }

  /** A reported move stands: unless the account was moved once more, it is there and has
      the address that the report names. */
  lemma {:induction false} DisplacedHolds(accounts: seq<Row>, rows: seq<Row>, k: nat)
    requires LastMove(MoveRows(StartMoving(accounts), rows, false).displaced, k)
    ensures var st := MoveRows(StartMoving(accounts), rows, false);
            exists r :: r in st.accounts && r.id == st.displaced[k].postgresId
                && r.email == st.displaced[k].displacedEmail
  {
    var st := MoveRows(StartMoving(accounts), rows, false);
    LastMoveStands(accounts, rows, k);
    DisplacedAreIds(accounts, rows, false, k);
    MoveFrame(accounts, rows, false);
    FrameIds(accounts, st.accounts, st.displaced);
    var r :| r in st.accounts && r.id == st.displaced[k].postgresId;
  }
}
