/** That those are all such sources: every other one has a target which parks an account at every
    run (backend/scripts/migrate_accounts_to_postgres.py:301-346, 355-424, 495-529). */
module QuietSources {
  import opened Text
  import opened AccountsTables
  import opened EmailParking
  import opened Displacement
  import opened MergePlan
  import opened AccountsMerge
  import opened MergeGuarantees
  import opened MergeRepeat
  import opened MergeVerification
  import opened MergeConstraints
  import opened LiveCrowd
  import opened ParkingTruth
  import opened QuietRepeats

  // ---- sources whose repeat parks an account ----------------------------------------------------

  /** A run that parks nothing finds nobody in any row's way. */
  lemma {:induction false} QuietMeansClear(accounts: seq<Row>, rows: seq<Row>)
    requires MoveRows(StartMoving(accounts), rows, false).displaced == []
    requires !MoveRows(StartMoving(accounts), rows, false).failed
    ensures MoveRows(StartMoving(accounts), rows, false) == StartMoving(accounts)
    ensures forall i :: 0 <= i < |rows| ==> InTheWay(Owners(accounts), rows[i]) == ""
  {
    if rows != [] {
      var front, last := rows[..|rows| - 1], rows[|rows| - 1];
      MoveRowsLast(StartMoving(accounts), rows, false);
      QuietStep(MoveRows(StartMoving(accounts), front, false), last);
      QuietMeansClear(accounts, front);
      assert rows == front + [last];
      OneMoreClear(Owners(accounts), front, last);
    }
  }

  lemma OneMoreClear(owners: map<string, string>, front: seq<Row>, last: Row)
    requires InTheWay(owners, last) == "" && forall i :: 0 <= i < |front| ==> InTheWay(owners, front[i]) == ""
    ensures forall i :: 0 <= i < |front + [last]| ==> InTheWay(owners, (front + [last])[i]) == ""
  {
  }

  lemma QuietStep(st: Moving, row: Row)
    requires MoveStep(st, row, false).displaced == [] && !MoveStep(st, row, false).failed
    ensures MoveStep(st, row, false) == st && InTheWay(st.owners, row) == ""
  {
  }

  /** Somebody in the way of a source row after the merge spoils the repeat. */
  lemma InTheWayIsNotQuiet(db: Db, data: Db, o: Options, i: nat)
    requires Commits(db, data, o) && o.preferSource && Accounts in data && i < |data[Accounts]|
    requires InTheWay(Owners(RowsOf(Merged(db, data, o), Accounts)), data[Accounts][i]) != ""
    ensures !QuietAgain(db, data, o)
  {
    var db' := Merged(db, data, o);
    if QuietAgain(db, data, o) {
      QuietMeansClear(RowsOf(db', Accounts), data[Accounts]);
    }
  }

  /** Two accounts with one address: a target that has the accounts before the first one
      takes that one in, and the repeat parks it for the second. */
  lemma SharedAddressParks(data: Db, i: nat, j: nat) returns (live: seq<Row>, o: Options)
    requires Accounts in data && i < j < |data[Accounts]| && DistinctIds(data[Accounts])
    requires Named(data[Accounts][i]) && Named(data[Accounts][j])
    requires Norm(data[Accounts][i].email) == Norm(data[Accounts][j].email)
    ensures o.force && o.preferSource && SoundDb(TargetFor(data, live)) && ParkingSafe(TargetFor(data, live), data, o)
    ensures Commits(TargetFor(data, live), data, o) && !QuietAgain(TargetFor(data, live), data, o)
  {
    var rows := data[Accounts];
    var avoid := UniqueKeys(Accounts, rows);
    BeforeIs(rows, i, avoid);
    live, o := Before(rows, i, avoid), Options(true, false, true);
    Bystanders(live, rows);
    CalmTarget(data, live, o);
    TakenIn(rows, live, i);
    HolderStays(TargetFor(data, live), data, o, i + 1, Norm(rows[i].email));
    InTheWayIsNotQuiet(TargetFor(data, live), data, o, j);
  }

  /** Accounts that hold none of the source's addresses. */
  lemma {:induction false} Bystanders(live: seq<Row>, rows: seq<Row>)
    requires UniqueKeys(Accounts, live) !! UniqueKeys(Accounts, rows)
    ensures LowerInWay(live, rows) && forall i :: 0 <= i < |rows| ==> Norm(rows[i].email) !in Owners(live)
  {
    OwnersKeys(live);
    forall i | 0 <= i < |rows| ensures Norm(rows[i].email) in UniqueKeys(Accounts, rows) {
      assert rows[i] in rows && UniqueKey(Accounts, rows[i]) in UniqueKeys(Accounts, rows);
    }
    forall r | r in live ensures Norm(r.email) in UniqueKeys(Accounts, live) {
      assert UniqueKey(Accounts, r) in UniqueKeys(Accounts, live);
    }
  }

  /** With only such accounts the merge starts and moves nobody. */
  lemma {:induction false} CalmTarget(data: Db, live: seq<Row>, o: Options)
    requires o == Options(true, false, true) && Accounts in data
    requires Sound(Accounts, live) && LowerInWay(live, data[Accounts])
    requires forall i :: 0 <= i < |data[Accounts]| ==> Norm(data[Accounts][i].email) !in Owners(live)
    ensures var db := TargetFor(data, live);
            SoundDb(db) && ParkingSafe(db, data, o) && Commits(db, data, o) && Base(db, data, o) == db
  {
    NothingToPark(StartMoving(live), data[Accounts], false);
    NothingMovedBase(TargetFor(data, live), data, o);
  }

  /** The row is inserted at its turn. */
  lemma {:induction false} TakenIn(rows: seq<Row>, live: seq<Row>, i: nat)
    requires i < |rows| && DistinctIds(rows) && Ids(live) == Ids(rows[..i]) && Norm(rows[i].email) !in Owners(live)
    ensures var st := PlanOf(Accounts, rows[..i + 1], live, Ids(live));
            Norm(rows[i].email) in st.owners && st.owners[Norm(rows[i].email)] == rows[i].id
  {
    AllThere(rows[..i], live);
    EarlierIds(rows, i, i);
    IdIsKey(live, rows[i]);
    OwnersKeys(live);
    assert rows[..i + 1] == rows[..i] + [rows[i]];
    PlanOfLast(Accounts, rows[..i], rows[i], live, Ids(live));
  }

  /** Who holds an address while the accounts are planned holds it after the merge. */
  lemma HolderStays(db: Db, data: Db, o: Options, n: nat, e: string)
    requires Commits(db, data, o) && Accounts in data && n <= |data[Accounts]|
    requires Accounts in db && Accounts in Base(db, data, o)
    requires e in PlanOf(Accounts, data[Accounts][..n], Base(db, data, o)[Accounts], KnownBefore(db, data)).owners
    ensures Accounts in Merged(db, data, o) && e in Owners(Merged(db, data, o)[Accounts])
    ensures Owners(Merged(db, data, o)[Accounts])[e]
            == PlanOf(Accounts, data[Accounts][..n], Base(db, data, o)[Accounts], KnownBefore(db, data)).owners[e]
  {
    var rows, base, known := data[Accounts], Base(db, data, o)[Accounts], KnownBefore(db, data);
    OwnerStays(rows, base, known, n, |rows|, e);
    assert rows[..|rows|] == rows;
    PlanTracks(Accounts, rows, base, known);
    PlanAt(db, data, o, Accounts);
  }

  // ---- an address of the parked form ---------------------------------------------------------------

  /** Three ids that are parked at the same address. */
  function Twin(s: string, k: nat): string { if k == 0 then s else Twin(s, k - 1) + "-" }

  lemma {:induction false} TwinParks(s: string, k: nat)
    requires s != "" && (forall i :: 0 <= i < |s| ==> IsWordChar(s[i])) && IsLower(s)
    ensures WordChars(Twin(s, k)) == s && |Twin(s, k)| == |s| + k
    ensures LowerId(Twin(s, k)) && DisplacedEmailFor(Twin(s, k)) == PARK_PREFIX + s + PARK_SUFFIX
  {
    if k == 0 {
      WordCharsKeeps(s);
    } else {
      TwinParks(s, k - 1);
      WordCharsConcat(Twin(s, k - 1), "-");
    }
  }

  /** An id parked at that address, other than these two. */
  lemma AnotherId(e: string, a: string, b: string) returns (x: string)
    requires Parkable(e)
    ensures x != "" && x != a && x != b && LowerId(x) && DisplacedEmailFor(x) == e
  {
    var y :| LowerId(y) && e == DisplacedEmailFor(y);
    OnlyWordChars(y);
    var s := SafeId(y);
    TwinParks(s, 0);
    TwinParks(s, 1);
    TwinParks(s, 2);
    x := if Twin(s, 0) != a && Twin(s, 0) != b then Twin(s, 0)
         else if Twin(s, 1) != a && Twin(s, 1) != b then Twin(s, 1) else Twin(s, 2);
  }

  lemma {:induction false} MoveRowsConcat(st: Moving, a: seq<Row>, b: seq<Row>, dryRun: bool)
    ensures MoveRows(st, a + b, dryRun) == MoveRows(MoveRows(st, a, dryRun), b, dryRun)
  {
    if b == [] {
      assert a + b == a;
    } else {
      var front, last := b[..|b| - 1], b[|b| - 1];
      assert (a + b)[..|a + b| - 1] == a + front && (a + b)[|a + b| - 1] == last;
      MoveRowsConcat(st, a, front, dryRun);
    }
  }

  /** In a source without shared addresses only one row asks for an address. */
  lemma NobodyElseAsks(rows: seq<Row>, k: nat, owners: map<string, string>, m: nat)
    requires OneIdPerAddress(rows) && DistinctIds(rows) && k < |rows| && Named(rows[k]) && m < |rows| && m != k
    requires owners.Keys == {Norm(rows[k].email)}
    ensures InTheWay(owners, rows[m]) == ""
  {
    assert rows[m].id != rows[k].id;
  }

  /** So the others, some stretch of the source, move nobody. */
  lemma {:induction false} OthersMoveNobody(rows: seq<Row>, k: nat, st: Moving, from: nat, to: nat)
    requires OneIdPerAddress(rows) && DistinctIds(rows) && k < |rows| && Named(rows[k])
    requires st.owners.Keys == {Norm(rows[k].email)} && from <= to <= |rows| && !(from <= k < to)
    ensures MoveRows(st, rows[from..to], false) == st
  {
    var part := rows[from..to];
    forall m | 0 <= m < |part| ensures InTheWay(st.owners, part[m]) == "" {
      NobodyElseAsks(rows, k, st.owners, from + m);
    }
    NothingToPark(st, part, false);
  }

  /** The one account that holds the j-th row's address is parked at the i-th row's. */
  lemma {:induction false} ParkedAtAsked(rows: seq<Row>, i: nat, j: nat, x: string, live: seq<Row>)
    requires i < j < |rows| && DistinctIds(rows) && OneIdPerAddress(rows) && Named(rows[i]) && Named(rows[j])
    requires Norm(rows[i].email) != Norm(rows[j].email) && DisplacedEmailFor(x) == Norm(rows[i].email)
    requires x != "" && x != rows[j].id && live == [Someone(x, rows[j].email)]
    ensures var st := MoveRows(StartMoving(live), rows, false);
            !st.failed && st.accounts == [Someone(x, Norm(rows[i].email))]
  {
    var start := StartMoving(live);
    var moved := MoveStep(start, rows[j], false);
    OwnersOne(live[0]);
    OthersMoveNobody(rows, j, start, 0, j);
    OneMoves(live, rows[j], x, Norm(rows[i].email));
    OthersMoveNobody(rows, i, moved, j + 1, |rows|);
    InThreeParts(start, rows, j, moved);
  }

  lemma {:induction false} InThreeParts(start: Moving, rows: seq<Row>, j: nat, moved: Moving)
    requires j < |rows| && MoveRows(start, rows[0..j], false) == start && MoveStep(start, rows[j], false) == moved
    requires MoveRows(moved, rows[j + 1..|rows|], false) == moved
    ensures MoveRows(start, rows, false) == moved
  {
    MoveRowsNext(start, rows, j, false);
    assert rows == rows[..j + 1] + rows[j + 1..|rows|] && rows[0..j] == rows[..j];
    MoveRowsConcat(start, rows[..j + 1], rows[j + 1..|rows|], false);
  }

  lemma {:induction false} OneMoves(live: seq<Row>, row: Row, x: string, e: string)
    requires live == [Someone(x, row.email)] && Named(row) && x != "" && x != row.id
    requires DisplacedEmailFor(x) == e != Norm(row.email)
    requires Owners(live) == map[Norm(row.email) := x]
    ensures var st := MoveStep(StartMoving(live), row, false);
            !st.failed && st.owners == map[e := x] && st.accounts == [Someone(x, e)]
  {
    assert InTheWay(Owners(live), row) == x;
    assert Candidate(x, 0) == e && Candidate(x, 0) !in Owners(live).Keys;
    assert Parked(x, Owners(live).Keys) == e;
    assert SetEmail(live, x, e) == [Someone(x, e)];
  }

  /** The merge of the source into this account alone. */
  lemma {:induction false} OneAccountMerge(db: Db, data: Db, o: Options, r: Row, now: Row)
    requires o == Options(true, false, true) && Accounts in data && db == TargetFor(data, [r])
    requires var st := MoveRows(StartMoving([r]), data[Accounts], false); !st.failed && st.accounts == [now]
    ensures SoundDb(db) && Commits(db, data, o)
    ensures Accounts in db && Accounts in Base(db, data, o) && Base(db, data, o)[Accounts] == [now]
  {
  }

  lemma LowerIsSafe(db: Db, data: Db, o: Options, r: Row)
    requires Accounts in data && db == TargetFor(data, [r]) && LowerId(r.id)
    ensures ParkingSafe(db, data, o)
  {
    assert forall s :: s in [r] ==> s == r;
  }

  /** Such a target: the merge parks its account where an earlier row asks for its address,
      and the repeat parks it once more. */
  lemma LateParkingRepeats(data: Db, i: nat, j: nat) returns (live: seq<Row>, o: Options)
    requires Accounts in data && i < j < |data[Accounts]|
    requires DistinctIds(data[Accounts]) && OneIdPerAddress(data[Accounts])
    requires Named(data[Accounts][i]) && Named(data[Accounts][j]) && Parkable(Norm(data[Accounts][i].email))
    requires Norm(data[Accounts][i].email) != Norm(data[Accounts][j].email)
    ensures o.force && o.preferSource && SoundDb(TargetFor(data, live)) && ParkingSafe(TargetFor(data, live), data, o)
    ensures Commits(TargetFor(data, live), data, o) && !QuietAgain(TargetFor(data, live), data, o)
  {
    var rows := data[Accounts];
    var e := Norm(rows[i].email);
    var x := AnotherId(e, rows[i].id, rows[j].id);
    var r := Someone(x, rows[j].email);
    live, o := [r], Options(true, false, true);
    ParkedAtAsked(rows, i, j, x, live);
    OneAccountMerge(TargetFor(data, live), data, o, r, Someone(x, e));
    LowerIsSafe(TargetFor(data, live), data, o, r);
    ParkedIsNormal(x);
    ParkedStays(TargetFor(data, live), data, o, i, x, e);
  }

  lemma ParkedIsNormal(x: string)
    requires LowerId(x)
    ensures Norm(DisplacedEmailFor(x)) == DisplacedEmailFor(x)
  {
    DisplacedNorm(x);
  }

  /** The parked account still holds the address after the merge. */
  lemma {:induction false} ParkedStays(db: Db, data: Db, o: Options, i: nat, x: string, p: string)
    requires Commits(db, data, o) && o.preferSource && Accounts in data && i < |data[Accounts]|
    requires Accounts in db && Accounts in Base(db, data, o)
    requires |Base(db, data, o)[Accounts]| == 1 && Base(db, data, o)[Accounts][0].id == x
    requires Base(db, data, o)[Accounts][0].email == p && Norm(p) == Norm(data[Accounts][i].email)
    requires Named(data[Accounts][i]) && x != "" && x != data[Accounts][i].id
    ensures !QuietAgain(db, data, o)
  {
    var r := Base(db, data, o)[Accounts][0];
    assert Base(db, data, o)[Accounts] == [r];
    OwnersOne(r);
    assert data[Accounts][..0] == [];
    HolderStays(db, data, o, 0, Norm(p));
    InTheWayIsNotQuiet(db, data, o, i);
  }

  // ---- ids with an upper-case letter -------------------------------------------------------------------

  /** An id parked, but for letter case, at that address, other than this one. */
  lemma AnotherUpperId(e: string, a: string) returns (x: string)
    requires UpperParkable(e)
    ensures x != "" && x != a && !LowerId(x) && Norm(DisplacedEmailFor(x)) == e
  {
    var y :| !LowerId(y) && e == Norm(DisplacedEmailFor(y));
    WordCharsConcat(y, "-");
    assert WordChars("-") == "" && WordChars(y + "-") == WordChars(y);
    x := if y != a then y else y + "-";
  }

  /** One live account with such an id, and a row of another with its address: it is parked
      where no address that is compared can find it. */
  lemma {:induction false} UpperOneMoves(r: Row, row: Row)
    requires r.id != "" && !LowerId(r.id) && Named(row) && row.id != r.id && Norm(row.email) == Norm(r.email)
    ensures var st := MoveStep(StartMoving([r]), row, false);
            && !st.failed && st.owners == map[DisplacedEmailFor(r.id) := r.id]
            && st.accounts == [r.(email := DisplacedEmailFor(r.id))]
  {
    var p := DisplacedEmailFor(r.id);
    OwnersOne(r);
    UpperIsNotNormal(r.id);
    assert IsLower(Norm(r.email)) && InTheWay(Owners([r]), row) == r.id;
    assert Candidate(r.id, 0) !in Owners([r]).Keys && Parked(r.id, Owners([r]).Keys) == p;
    assert SetEmail([r], r.id, p) == [r.(email := p)];
  }

  /** So no later row moves it again. */
  lemma {:induction false} NobodyAsksUpper(st: Moving, id: string, rows: seq<Row>)
    requires !LowerId(id) && st.owners.Keys == {DisplacedEmailFor(id)}
    ensures MoveRows(st, rows, false) == st
  {
    UpperIsNotNormal(id);
    forall m | 0 <= m < |rows| ensures InTheWay(st.owners, rows[m]) == "" {
      assert IsLower(Norm(rows[m].email));
    }
    NothingToPark(st, rows, false);
  }

  /** Source rows of which the k-th, and none before it, asks for the account's address. */
  lemma {:induction false} UpperMoves(rows: seq<Row>, r: Row, k: nat)
    requires r.id != "" && !LowerId(r.id) && k < |rows| && Named(rows[k]) && rows[k].id != r.id
    requires Norm(rows[k].email) == Norm(r.email)
    requires forall m :: 0 <= m < k ==> InTheWay(map[Norm(r.email) := r.id], rows[m]) == ""
    ensures var st := MoveRows(StartMoving([r]), rows, false);
            !st.failed && st.accounts == [r.(email := DisplacedEmailFor(r.id))]
  {
    var start := StartMoving([r]);
    var moved := MoveStep(start, rows[k], false);
    OwnersOne(r);
    UpperOneMoves(r, rows[k]);
    NothingToPark(start, rows[0..k], false);
    NobodyAsksUpper(moved, r.id, rows[k + 1..|rows|]);
    InThreeParts(start, rows, k, moved);
  }

  /** A row that asks for an address which such an account could come to: a target whose
      account holds it is parked at every run. */
  lemma UpperAddressRepeats(data: Db, i: nat) returns (live: seq<Row>, o: Options)
    requires Accounts in data && i < |data[Accounts]| && DistinctIds(data[Accounts]) && OneIdPerAddress(data[Accounts])
    requires Named(data[Accounts][i]) && UpperParkable(Norm(data[Accounts][i].email))
    ensures o.force && o.preferSource && SoundDb(TargetFor(data, live))
    ensures Commits(TargetFor(data, live), data, o) && !QuietAgain(TargetFor(data, live), data, o)
  {
    var rows := data[Accounts];
    var x := AnotherUpperId(Norm(rows[i].email), rows[i].id);
    var r := Someone(x, rows[i].email);
    live, o := [r], Options(true, false, true);
    forall m | 0 <= m < i ensures InTheWay(map[Norm(r.email) := r.id], rows[m]) == "" {
      NobodyElseAsks(rows, i, map[Norm(r.email) := r.id], m);
    }
    UpperMoves(rows, r, i);
    OneAccountMerge(TargetFor(data, live), data, o, r, r.(email := DisplacedEmailFor(x)));
    ParkedStays(TargetFor(data, live), data, o, i, x, DisplacedEmailFor(x));
  }

  /** A live account with such an id, a row of another with its address, and a row for a third
      account at the address it comes to but for letter case. */
  ghost predicate UpperTrio(r: Row, b: Row, t: Row) {
    && r.id != "" && !LowerId(r.id) && b.id !in {"", r.id} && t.id !in {"", r.id, b.id}
    && Norm(b.email) == Norm(r.email) != "" && !IsParkedAddress(Norm(b.email))
    && Norm(t.email) == Norm(DisplacedEmailFor(r.id))
  }

  lemma TrioAddresses(r: Row, b: Row, t: Row)
    requires UpperTrio(r, b, t)
    ensures Named(t) && Norm(t.email) != Norm(b.email) && !Parkable(Norm(b.email))
  {
    var d := DisplacedEmailFor(r.id);
    assert d[0] == PARK_PREFIX[0] && d[|d| - 1] == PARK_SUFFIX[|PARK_SUFFIX| - 1];
    assert Norm(d) == Lower(d);
    assert Lower(d)[..|PARK_PREFIX|] == PARK_PREFIX;
  }

  lemma {:induction false} PairIsQuiet(b: Row, t: Row)
    requires b.id != t.id && Norm(b.email) != Norm(t.email) && !Parkable(Norm(b.email))
    ensures QuietSource([b, t]) && DistinctIds([b, t])
  {
    assert OneIdPerAddress([b, t]);
  }

  lemma {:induction false} TrioIsQuiet(r: Row, b: Row, t: Row)
    requires UpperTrio(r, b, t)
    ensures QuietSource([b, t]) && DistinctIds([b, t]) && OnlyInWay([r], [b, t], r.id)
  {
    TrioAddresses(r, b, t);
    PairIsQuiet(b, t);
    assert forall s :: s in [r] ==> s == r;
  }

  /** The merge commits, its source is one that lower-case ids make quiet, and yet it parks
      the account anew at every run. */
  lemma UpperParkedAgain(db: Db, data: Db, o: Options, r: Row, b: Row, t: Row)
    requires UpperTrio(r, b, t) && db == map[Accounts := [r]] && data == map[Accounts := [b, t]]
    requires o == Options(true, false, true)
    ensures SoundDb(db) && QuietSource(data[Accounts]) && DistinctIds(data[Accounts]) && Commits(db, data, o)
    ensures !QuietAgain(db, data, o)
  {
    TrioAddresses(r, b, t);
    TrioIsQuiet(r, b, t);
    assert db == TargetFor(data, [r]);
    UpperMoves(data[Accounts], r, 0);
    OneAccountMerge(db, data, o, r, r.(email := DisplacedEmailFor(r.id)));
    ParkedStays(db, data, o, 1, r.id, DisplacedEmailFor(r.id));
  }

  lemma SomeTrio(id: string) returns (r: Row, b: Row, t: Row)
    requires id != "" && !LowerId(id)
    ensures r.id == id && UpperTrio(r, b, t)
  {
    ParkedX({id});
    var s := Parked("x", {id});
    ParkedX({id, s});
    CandidateIsParkedAddress("x", FirstFree("x", {id}, 0));
    CandidateIsParkedAddress("x", FirstFree("x", {id, s}, 0));
    NormFixed("e");
    NormTwice(DisplacedEmailFor(id));
    r, b := Someone(id, "e"), Someone(s, "e");
    t := Someone(Parked("x", {id, s}), Norm(DisplacedEmailFor(id)));
  }

  // ---- exactly which sources --------------------------------------------------------------------------

  /** For a source whose ids are distinct: merged again with `prefer_source` into every target
      it parks and changes nothing, exactly when no two of its accounts share an address, none
      asks for one of the parked form before another asks for another address, and none asks
      for one that an id with an upper-case letter could be parked at. */
  lemma QuietExactly(data: Db)
    requires Accounts in data && DistinctIds(data[Accounts])
    ensures QuietSource(data[Accounts]) && NoUpperAsked(data[Accounts])
            <==> forall db: Db, o: Options ::
                   SoundDb(db) && Commits(db, data, o) && o.force && o.preferSource ==> QuietAgain(db, data, o)
  {
    var rows := data[Accounts];
    if QuietSource(rows) && NoUpperAsked(rows) {
      forall db: Db, o: Options | SoundDb(db) && Commits(db, data, o) && o.force && o.preferSource
        ensures QuietAgain(db, data, o)
      {
        RepeatWithPreferSource(db, data, o);
      }
    } else if QuietSource(rows) {
      var i :| 0 <= i < |rows| && Named(rows[i]) && UpperParkable(Norm(rows[i].email));
      var live, o := UpperAddressRepeats(data, i);
    } else {
      var live, o := NotQuiet(data);
    }
  }

  /** Over the targets whose displaced accounts have lower-case ids the last condition goes. */
  lemma QuietExactlyForLowerIds(data: Db)
    requires Accounts in data && DistinctIds(data[Accounts])
    ensures QuietSource(data[Accounts])
            <==> forall db: Db, o: Options ::
                   SoundDb(db) && ParkingSafe(db, data, o) && Commits(db, data, o) && o.force && o.preferSource
                   ==> QuietAgain(db, data, o)
  {
    if QuietSource(data[Accounts]) {
      forall db: Db, o: Options |
        SoundDb(db) && ParkingSafe(db, data, o) && Commits(db, data, o) && o.force && o.preferSource
        ensures QuietAgain(db, data, o)
      {
        RepeatWithPreferSource(db, data, o);
      }
    } else {
      var live, o := NotQuiet(data);
    }
  }

  /** And for an id: every repeated merge of such a source that finds at most this account in
      a row's way is quiet exactly when the id has no upper-case letter. */
  lemma QuietExactlyForId(id: string)
    requires id != ""
    ensures LowerId(id)
            <==> forall db: Db, data: Db, o: Options ::
                   SoundDb(db) && QuietSource(RowsOf(data, Accounts))
                   && Commits(db, data, o) && o.force && o.preferSource
                   && OnlyInWay(RowsOf(db, Accounts), RowsOf(data, Accounts), id)
                   ==> QuietAgain(db, data, o)
  {
    if LowerId(id) {
      forall db: Db, data: Db, o: Options |
        SoundDb(db) && QuietSource(RowsOf(data, Accounts)) && Commits(db, data, o) && o.force && o.preferSource
        && OnlyInWay(RowsOf(db, Accounts), RowsOf(data, Accounts), id)
        ensures QuietAgain(db, data, o)
      {
        RepeatWithPreferSource(db, data, o);
      }
    } else {
      var db, data, o := UpperIdRepeats(id);
    }
  }

  lemma UpperIdRepeats(id: string) returns (db: Db, data: Db, o: Options)
    requires id != "" && !LowerId(id)
    ensures SoundDb(db) && QuietSource(RowsOf(data, Accounts)) && Commits(db, data, o) && o.force && o.preferSource
    ensures OnlyInWay(RowsOf(db, Accounts), RowsOf(data, Accounts), id) && !QuietAgain(db, data, o)
  {
    var r, b, t := SomeTrio(id);
    TrioIsQuiet(r, b, t);
    db, data, o := map[Accounts := [r]], map[Accounts := [b, t]], Options(true, false, true);
    UpperParkedAgain(db, data, o, r, b, t);
  }

  lemma SharedPair(rows: seq<Row>) returns (i: nat, j: nat)
    requires !OneIdPerAddress(rows)
    ensures i < j < |rows| && Named(rows[i]) && Named(rows[j]) && Norm(rows[i].email) == Norm(rows[j].email)
  {
    var k, l :| 0 <= k < |rows| && 0 <= l < |rows| && Named(rows[k]) && Named(rows[l])
                && Norm(rows[k].email) == Norm(rows[l].email) && rows[k].id != rows[l].id;
    i, j := if k < l then k else l, if k < l then l else k;
  }

  lemma LatePair(rows: seq<Row>) returns (i: nat, j: nat)
    requires !ParkedLast(rows)
    ensures i < j < |rows| && Named(rows[i]) && Named(rows[j]) && Parkable(Norm(rows[i].email))
    ensures Norm(rows[j].email) != Norm(rows[i].email)
  {
    i, j :| 0 <= i < j < |rows| && Named(rows[i]) && Named(rows[j]) && Parkable(Norm(rows[i].email))
            && Norm(rows[j].email) != Norm(rows[i].email);
  }

  lemma NotQuiet(data: Db) returns (live: seq<Row>, o: Options)
    requires Accounts in data && DistinctIds(data[Accounts]) && !QuietSource(data[Accounts])
    ensures o.force && o.preferSource && SoundDb(TargetFor(data, live)) && ParkingSafe(TargetFor(data, live), data, o)
    ensures Commits(TargetFor(data, live), data, o) && !QuietAgain(TargetFor(data, live), data, o)
  {
    if !OneIdPerAddress(data[Accounts]) {
      var i, j := SharedPair(data[Accounts]);
      live, o := SharedAddressParks(data, i, j);
    } else {
      var i, j := LatePair(data[Accounts]);
      live, o := LateParkingRepeats(data, i, j);
    }
  }
}
