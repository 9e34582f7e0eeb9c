/** What the parking loop comes to under any ids: who is cleared out of the way, and where its
    bookkeeping is true of the rows (backend/scripts/migrate_accounts_to_postgres.py:307-346). */
module ParkingTruth {
  import opened Text
  import opened AccountsTables
  import opened EmailParking
  import opened Displacement

  /** A source row that can displace an account. */
  predicate Named(row: Row) { row.id != "" && Norm(row.email) != "" }

  /** The form of the addresses that accounts with lower-case ids are parked at. */
  ghost predicate Parkable(e: string) { exists x :: LowerId(x) && e == DisplacedEmailFor(x) }

  /** What an address comes to after normalisation at which some other account is parked. */
  ghost predicate UpperParkable(e: string) { exists x :: !LowerId(x) && e == Norm(DisplacedEmailFor(x)) }

  ghost predicate NoUpperAsked(rows: seq<Row>) {
    forall i :: 0 <= i < |rows| && Named(rows[i]) ==> !UpperParkable(Norm(rows[i].email))
  }

  ghost predicate OneIdPerAddress(rows: seq<Row>) {
    forall i, j :: 0 <= i < |rows| && 0 <= j < |rows|
                   && Named(rows[i]) && Named(rows[j]) && Norm(rows[i].email) == Norm(rows[j].email)
                   ==> rows[i].id == rows[j].id
  }

  /** No row with such an address comes before one that can displace for another address. */
  ghost predicate ParkedLast(rows: seq<Row>) {
    forall i, j :: 0 <= i < j < |rows| && Named(rows[i]) && Named(rows[j]) && Parkable(Norm(rows[i].email))
                   ==> Norm(rows[j].email) == Norm(rows[i].email)
  }

  ghost predicate QuietSource(rows: seq<Row>) { OneIdPerAddress(rows) && ParkedLast(rows) }

  // ---- which addresses these are ---------------------------------------------------------------

  /** The parked form, with this name in it. */
  predicate ParkedName(e: string, name: string) {
    && e == PARK_PREFIX + name + PARK_SUFFIX && name != "" && IsLower(name)
    && forall i :: 0 <= i < |name| ==> IsWordChar(name[i])
  }

  predicate HasLetter(s: string) { exists i :: 0 <= i < |s| && 'a' <= s[i] <= 'z' }

  lemma {:induction false} OnlyWordChars(s: string)
    ensures forall i :: 0 <= i < |WordChars(s)| ==> IsWordChar(WordChars(s)[i])
  {
    if s != "" {
      OnlyWordChars(s[..|s| - 1]);
    }
  }

  /** Accounts with lower-case ids are parked at just the addresses of the parked form. */
  lemma ParkableExactly(e: string)
    ensures Parkable(e) <==> exists name :: ParkedName(e, name)
  {
    if x :| LowerId(x) && e == DisplacedEmailFor(x) {
      OnlyWordChars(x);
      assert ParkedName(e, SafeId(x));
    }
    if name :| ParkedName(e, name) {
      WordCharsKeeps(name);
      assert LowerId(name) && e == DisplacedEmailFor(name);
    }
  }

  lemma LowerAround(name: string)
    ensures Lower(PARK_PREFIX + name + PARK_SUFFIX) == PARK_PREFIX + Lower(name) + PARK_SUFFIX
  {
  }

  lemma {:induction false} NormParked(x: string)
    requires WordChars(x) != ""
    ensures Norm(DisplacedEmailFor(x)) == PARK_PREFIX + Lower(WordChars(x)) + PARK_SUFFIX
  {
    var d := DisplacedEmailFor(x);
    assert d[0] == PARK_PREFIX[0] && d[|d| - 1] == PARK_SUFFIX[|PARK_SUFFIX| - 1];
    assert Norm(d) == Lower(d);
    LowerAround(WordChars(x));
  }

  /** Other accounts come, but for letter case, to just those with a letter in the name. */
  lemma UpperParkableExactly(e: string)
    ensures UpperParkable(e) <==> exists name :: ParkedName(e, name) && HasLetter(name)
  {
    if x :| !LowerId(x) && e == Norm(DisplacedEmailFor(x)) {
      var w := WordChars(x);
      var i :| 0 <= i < |w| && IsUpper(w[i]);
      OnlyWordChars(x);
      NormParked(x);
      assert 'a' <= Lower(w)[i] <= 'z' && ParkedName(e, Lower(w));
    }
    if name :| ParkedName(e, name) && HasLetter(name) {
      var i :| 0 <= i < |name| && 'a' <= name[i] <= 'z';
      UpperName(name, i);
    }
  }

  /** The same name with one letter in upper case. */
  lemma UpperName(name: string, i: nat)
    requires IsLower(name) && (forall k :: 0 <= k < |name| ==> IsWordChar(name[k]))
    requires i < |name| && 'a' <= name[i] <= 'z'
    ensures UpperParkable(PARK_PREFIX + name + PARK_SUFFIX)
  {
    var x := name[i := (name[i] as int - 'a' as int + 'A' as int) as char];
    WordCharsKeeps(x);
    NormParked(x);
    assert IsUpper(x[i]) && Lower(x) == name;
  }

  // ---- after the loop nobody is in the way ---------------------------------------------------

  lemma LowerCandidateParkable(owner: string, n: nat)
    requires IsLower(Candidate(owner, n))
    ensures Parkable(Candidate(owner, n))
  {
    var y := if n == 0 then owner else owner + "_" + Decimal(n);
    if !LowerId(y) {
      UpperIsNotNormal(y);
    }
    assert Candidate(owner, n) == DisplacedEmailFor(y);
  }

  lemma {:induction false} UpperNumbered(owner: string, n: nat)
    requires !LowerId(owner)
    ensures !LowerId(owner + "_" + Decimal(n))
  {
    NumberedWords(owner, n);
    var i :| 0 <= i < |WordChars(owner)| && IsUpper(WordChars(owner)[i]);
    assert WordChars(owner + "_" + Decimal(n))[i] == WordChars(owner)[i];
  }

  lemma UpperCandidate(owner: string, n: nat)
    requires !LowerId(owner)
    ensures UpperParkable(Norm(Candidate(owner, n))) && !IsLower(Candidate(owner, n))
  {
    var y := if n == 0 then owner else owner + "_" + Decimal(n);
    UpperNumbered(owner, n);
    UpperIsNotNormal(y);
    assert !LowerId(y) && Candidate(owner, n) == DisplacedEmailFor(y);
  }

  /** A row's own move leaves nobody in its way. */
  lemma OwnMoveClears(st: Moving, row: Row)
    requires st.owners.Keys <= st.existing && !MoveStep(st, row, false).failed
    ensures Clear(MoveStep(st, row, false), row)
  {
  }

  /** A move for another row puts nobody in a row's way, unless it parks at the very address. */
  lemma OtherMoveClears(st: Moving, row: Row, other: Row)
    requires st.owners.Keys <= st.existing && !MoveStep(st, row, false).failed && Clear(st, other)
    requires Named(row) && Named(other) && Parkable(Norm(other.email)) ==> Norm(row.email) == Norm(other.email)
    ensures Clear(MoveStep(st, row, false), other)
  {
    var owner := InTheWay(st.owners, row);
    assert IsLower(Norm(other.email));
    if owner != "" && Parked(owner, st.existing) == Norm(other.email) {
      LowerCandidateParkable(owner, FirstFree(owner, st.existing, 0));
    }
  }

  lemma {:induction false} NotFailedBefore(accounts: seq<Row>, rows: seq<Row>, n: nat)
    requires n <= |rows| && !MoveRows(StartMoving(accounts), rows, false).failed
    ensures !MoveRows(StartMoving(accounts), rows[..n], false).failed
    decreases |rows| - n
  {
    if n == |rows| {
      assert rows[..n] == rows;
    } else {
      NotFailedBefore(accounts, rows, n + 1);
      MoveRowsNext(StartMoving(accounts), rows, n, false);
    }
  }

  /** The loop's state before the n-th row. */
  lemma {:induction false} StateUpTo(accounts: seq<Row>, rows: seq<Row>, n: nat)
    requires n < |rows| && !MoveRows(StartMoving(accounts), rows, false).failed
    ensures var st := MoveRows(StartMoving(accounts), rows[..n], false);
            && st.owners.Keys <= st.existing && !MoveStep(st, rows[n], false).failed
            && MoveRows(StartMoving(accounts), rows[..n + 1], false) == MoveStep(st, rows[n], false)
  {
    NotFailedBefore(accounts, rows, n + 1);
    MoveRowsNext(StartMoving(accounts), rows, n, false);
    OwnersExist(accounts, rows[..n], false);
  }

  lemma {:induction false} ClearFrom(accounts: seq<Row>, rows: seq<Row>, i: nat, n: nat)
    requires i < n <= |rows| && !MoveRows(StartMoving(accounts), rows, false).failed && ParkedLast(rows)
    ensures Clear(MoveRows(StartMoving(accounts), rows[..n], false), rows[i])
  {
    var m := n - 1;
    StateUpTo(accounts, rows, m);
    if i == m {
      OwnMoveClears(MoveRows(StartMoving(accounts), rows[..m], false), rows[m]);
    } else {
      ClearFrom(accounts, rows, i, m);
      OtherMoveClears(MoveRows(StartMoving(accounts), rows[..m], false), rows[m], rows[i]);
    }
  }

  // ---- where the loop's bookkeeping is true of the rows ---------------------------------------

  ghost predicate At(rows: seq<Row>, k: nat, e: string)
    requires k < |rows|
  {
    Norm(rows[k].email) == e
  }

  ghost predicate AtMostOne(rows: seq<Row>, e: string) {
    forall k, l :: 0 <= k < l < |rows| && At(rows, k, e) ==> !At(rows, l, e)
  }

  /** At most one row is at the address, and the bookkeeping knows just that one. */
  ghost predicate Agrees(rows: seq<Row>, owners: map<string, string>, e: string) {
    && AtMostOne(rows, e)
    && (e in owners ==> exists k :: 0 <= k < |rows| && At(rows, k, e) && rows[k].id == owners[e])
    && (forall k :: 0 <= k < |rows| && At(rows, k, e) ==> e in owners)
  }

  lemma {:induction false} HolderAt(rows: seq<Row>, k: nat, e: string)
    requires k < |rows| && At(rows, k, e) && AtMostOne(rows, e)
    ensures e in Owners(rows) && Owners(rows)[e] == rows[k].id
  {
    assert rows[k] in rows && UniqueKey(Accounts, rows[k]) in UniqueKeys(Accounts, rows);
    OwnersKeys(rows);
    OwnerHasRow(rows, e);
    var r :| r in rows && Norm(r.email) == e && r.id == Owners(rows)[e];
    var l :| 0 <= l < |rows| && rows[l] == r;
    assert At(rows, l, e);
  }

  lemma {:induction false} AgreesAtStart(rows: seq<Row>, e: string)
    requires Sound(Accounts, rows)
    ensures Agrees(rows, Owners(rows), e)
  {
    forall k | 0 <= k < |rows| && At(rows, k, e) ensures e in Owners(rows) {
      HolderAt(rows, k, e);
    }
    if e in Owners(rows) {
      OwnerHasRow(rows, e);
      var r :| r in rows && Norm(r.email) == e && r.id == Owners(rows)[e];
      var k :| 0 <= k < |rows| && rows[k] == r;
      assert At(rows, k, e);
    }
  }

  /** Where it is true, its holder is the one that the rows give. */
  lemma {:induction false} AgreesOnHolder(rows: seq<Row>, owners: map<string, string>, e: string)
    requires Agrees(rows, owners, e) && e in Owners(rows)
    ensures e in owners && owners[e] == Owners(rows)[e]
  {
    OwnerHasRow(rows, e);
    var r :| r in rows && Norm(r.email) == e && r.id == Owners(rows)[e];
    var l :| 0 <= l < |rows| && rows[l] == r;
    assert At(rows, l, e);
    var k :| 0 <= k < |rows| && At(rows, k, e) && rows[k].id == owners[e];
    assert k == l;
  }

  /** An address that the account's parking does not come to, but for letter case. */
  ghost predicate Harmless(owner: string, e: string) { LowerId(owner) || !UpperParkable(e) }

  /** What a move does to the bookkeeping at an address: nothing, or it takes it along. */
  lemma {:induction false} ParkedMeets(owner: string, taken: set<string>, e: string)
    requires IsLower(e) && Harmless(owner, e)
    ensures var p := Parked(owner, taken); p !in taken && (Norm(p) == e <==> p == e)
  {
    var n := FirstFree(owner, taken, 0);
    if LowerId(owner) {
      CandidateNorm(owner, n);
    } else {
      UpperCandidate(owner, n);
    }
  }

  ghost predicate OnlyAt(rows: seq<Row>, k: nat, id: string) {
    k < |rows| && rows[k].id == id && forall l :: 0 <= l < |rows| && l != k ==> rows[l].id != id
  }

  lemma {:induction false} MovedAgrees(rows: seq<Row>, owners: map<string, string>, k: nat, f: string, p: string,
                                       e: string)
    requires k < |rows| && At(rows, k, f) && OnlyAt(rows, k, rows[k].id)
    requires Agrees(rows, owners, e) && Agrees(rows, owners, f) && f in owners && owners[f] == rows[k].id
    requires p !in owners && Norm(p) != f && (Norm(p) == e <==> p == e)
    ensures Agrees(SetEmail(rows, rows[k].id, p), (owners - {f})[p := rows[k].id], e)
  {
    var now, moved := SetEmail(rows, rows[k].id, p), (owners - {f})[p := rows[k].id];
    assert forall l :: 0 <= l < |rows| && l != k ==> now[l] == rows[l] && (At(now, l, e) <==> At(rows, l, e));
    assert At(now, k, e) <==> p == e;
    if e in moved && p != e {
      var l :| 0 <= l < |rows| && At(rows, l, e) && rows[l].id == owners[e];
      assert l != k && At(now, l, e) && now[l].id == moved[e];
    }
  }

  lemma UniqueId(rows: seq<Row>, k: nat)
    requires Enforced(Accounts, rows) && k < |rows|
    ensures OnlyAt(rows, k, rows[k].id)
  {
    forall l | 0 <= l < |rows| && l != k ensures rows[l].id != rows[k].id {
      assert PrimaryKey(Accounts, rows[if l < k then l else k]) != PrimaryKey(Accounts, rows[if l < k then k else l]);
    }
  }

  lemma {:induction false} AgreesStep(st: Moving, row: Row, e: string)
    requires Enforced(Accounts, st.accounts) && st.owners.Keys <= st.existing && !MoveStep(st, row, false).failed
    requires IsLower(e) && Agrees(st.accounts, st.owners, e)
    requires InTheWay(st.owners, row) != "" ==>
               && Agrees(st.accounts, st.owners, Norm(row.email))
               && Harmless(InTheWay(st.owners, row), e) && Harmless(InTheWay(st.owners, row), Norm(row.email))
    ensures var next := MoveStep(st, row, false); Agrees(next.accounts, next.owners, e)
  {
    var owner, f := InTheWay(st.owners, row), Norm(row.email);
    if owner != "" {
      var k :| 0 <= k < |st.accounts| && At(st.accounts, k, f) && st.accounts[k].id == st.owners[f];
      assert IsLower(f);
      ParkedMeets(owner, st.existing, e);
      ParkedMeets(owner, st.existing, f);
      UniqueId(st.accounts, k);
      MovedAgrees(st.accounts, st.owners, k, f, Parked(owner, st.existing), e);
    }
  }

  /** Either the accounts that source rows displace have lower-case ids, or no source row
      asks for an address that the others could come to. */
  ghost predicate NoClash(accounts: seq<Row>, rows: seq<Row>) { LowerInWay(accounts, rows) || NoUpperAsked(rows) }

  lemma {:induction false} LowerInWayUpTo(accounts: seq<Row>, rows: seq<Row>, n: nat)
    requires n <= |rows| && LowerInWay(accounts, rows)
    ensures LowerInWay(accounts, rows[..n])
  {
    assert forall i :: 0 <= i < n ==> rows[..n][i] == rows[i];
  }

  lemma {:induction false} LowerOwner(accounts: seq<Row>, rows: seq<Row>, n: nat)
    requires n < |rows| && Sound(Accounts, accounts) && LowerInWay(accounts, rows)
    ensures var owner := InTheWay(MoveRows(StartMoving(accounts), rows[..n], false).owners, rows[n]);
            owner != "" ==> LowerId(owner)
  {
    LowerInWayUpTo(accounts, rows, n);
    MoveRowsAccurate(accounts, rows[..n]);
    MoveFrame(accounts, rows[..n], false);
    InTheWayIsLower(accounts, MoveRows(StartMoving(accounts), rows[..n], false), rows, rows[n]);
  }

  /** No displaced account can come to this address but for letter case. */
  ghost predicate Comparable(accounts: seq<Row>, rows: seq<Row>, e: string) {
    IsLower(e) && (LowerInWay(accounts, rows) || !UpperParkable(e))
  }

  lemma DisplacedHarmless(accounts: seq<Row>, rows: seq<Row>, m: nat, e: string)
    requires m < |rows| && Sound(Accounts, accounts) && Comparable(accounts, rows, e)
    ensures var owner := InTheWay(MoveRows(StartMoving(accounts), rows[..m], false).owners, rows[m]);
            owner != "" ==> Harmless(owner, e)
  {
    if LowerInWay(accounts, rows) {
      LowerOwner(accounts, rows, m);
    }
  }

  lemma AskedComparable(accounts: seq<Row>, rows: seq<Row>, m: nat)
    requires m < |rows| && NoClash(accounts, rows) && Named(rows[m])
    ensures Comparable(accounts, rows, Norm(rows[m].email))
  {
    assert IsLower(Norm(rows[m].email));
  }

  lemma {:induction false} AgreesNext(accounts: seq<Row>, rows: seq<Row>, st: Moving, m: nat, e: string)
    requires m < |rows| && Sound(Accounts, accounts) && NoClash(accounts, rows) && Comparable(accounts, rows, e)
    requires st == MoveRows(StartMoving(accounts), rows[..m], false) && st.owners.Keys <= st.existing
    requires !MoveStep(st, rows[m], false).failed && Agrees(st.accounts, st.owners, e)
    requires Named(rows[m]) ==> Agrees(st.accounts, st.owners, Norm(rows[m].email))
    ensures var next := MoveStep(st, rows[m], false); Agrees(next.accounts, next.owners, e)
  {
    MoveKeepsEnforced(accounts, rows[..m], false);
    if Named(rows[m]) {
      AskedComparable(accounts, rows, m);
      DisplacedHarmless(accounts, rows, m, e);
      DisplacedHarmless(accounts, rows, m, Norm(rows[m].email));
    }
    AgreesStep(st, rows[m], e);
  }

  /** At every address that no displaced account can come to the bookkeeping stays true. */
  lemma {:induction false} AgreesUpTo(accounts: seq<Row>, rows: seq<Row>, n: nat, e: string)
    requires n <= |rows| && Sound(Accounts, accounts) && !MoveRows(StartMoving(accounts), rows, false).failed
    requires NoClash(accounts, rows) && Comparable(accounts, rows, e)
    ensures var st := MoveRows(StartMoving(accounts), rows[..n], false); Agrees(st.accounts, st.owners, e)
    decreases n
  {
    if n == 0 {
      assert rows[..0] == [];
      AgreesAtStart(accounts, e);
    } else {
      var m := n - 1;
      AgreesUpTo(accounts, rows, m, e);
      if Named(rows[m]) {
        AskedComparable(accounts, rows, m);
        AgreesUpTo(accounts, rows, m, Norm(rows[m].email));
      }
      StateUpTo(accounts, rows, m);
      AgreesNext(accounts, rows, MoveRows(StartMoving(accounts), rows[..m], false), m, e);
    }
  }

  /** After the loop no source account's address is in the hands of another account. */
  lemma {:induction false} BaseClear(accounts: seq<Row>, rows: seq<Row>, i: nat)
    requires i < |rows| && Sound(Accounts, accounts) && !MoveRows(StartMoving(accounts), rows, false).failed
    requires NoClash(accounts, rows) && ParkedLast(rows)
    ensures var base := MoveRows(StartMoving(accounts), rows, false).accounts;
            && InTheWay(Owners(base), rows[i]) == "" && (Named(rows[i]) ==> AtMostOne(base, Norm(rows[i].email)))
  {
    var st, e := MoveRows(StartMoving(accounts), rows, false), Norm(rows[i].email);
    ClearFrom(accounts, rows, i, |rows|);
    assert rows[..|rows|] == rows;
    if Named(rows[i]) {
      AskedComparable(accounts, rows, i);
      AgreesUpTo(accounts, rows, |rows|, e);
      if e in Owners(st.accounts) {
        AgreesOnHolder(st.accounts, st.owners, e);
      }
    }
  }

  lemma {:induction false} NothingToPark(st: Moving, rows: seq<Row>, dryRun: bool)
    requires forall i :: 0 <= i < |rows| ==> InTheWay(st.owners, rows[i]) == ""
    ensures MoveRows(st, rows, dryRun) == st
  {
    if rows != [] {
      NothingToPark(st, rows[..|rows| - 1], dryRun);
    }
  }
}
