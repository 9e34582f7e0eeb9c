/** Targets to order: a sound accounts table with given ids and none of the given emails. */
module LiveCrowd {
  import opened NameLists
  import opened Text
  import opened AccountsTables
  import opened EmailParking
  import opened MergePlan
  import opened AccountsMerge
  import opened MergeGuarantees
  import opened MergeRepeat

  function Someone(id: string, email: string): Row { Row(id, email, "", "", "", "", "", "") }

  function Crowd(ids: seq<string>, avoid: set<string>): seq<Row> {
    if ids == [] then []
    else
      var front := Crowd(ids[..|ids| - 1], avoid);
      front + [Someone(ids[|ids| - 1], Parked("x", avoid + UniqueKeys(Accounts, front)))]
  }

  lemma ParkedX(taken: set<string>)
    ensures Parked("x", taken) !in taken && Norm(Parked("x", taken)) == Parked("x", taken)
  {
    WordCharsKeeps("x");
    CandidateNorm("x", FirstFree("x", taken, 0));
  }

  /** One more account with an id and a normalised email of its own. */
  lemma OneMore(rows: seq<Row>, row: Row)
    requires Sound(Accounts, rows) && row.id !in Ids(rows) && Norm(row.email) !in UniqueKeys(Accounts, rows)
    ensures Sound(Accounts, rows + [row])
    ensures Ids(rows + [row]) == Ids(rows) + {row.id}
    ensures UniqueKeys(Accounts, rows + [row]) == UniqueKeys(Accounts, rows) + {Norm(row.email)}
  {
    KeysAppend(Accounts, rows, row);
    forall r | r in rows ensures PrimaryKey(Accounts, r) != PrimaryKey(Accounts, row) {
      assert r.id in Ids(rows) && PrimaryKey(Accounts, r)[0] == r.id && PrimaryKey(Accounts, row)[0] == row.id;
    }
    SoundAppend(Accounts, rows, row);
  }

  ghost predicate IsCrowd(rows: seq<Row>, ids: set<string>, avoid: set<string>) {
    Sound(Accounts, rows) && Ids(rows) == ids && UniqueKeys(Accounts, rows) !! avoid
  }

  lemma OneMoreInCrowd(front: seq<Row>, ids: set<string>, id: string, avoid: set<string>)
    requires IsCrowd(front, ids, avoid) && id !in ids
    ensures IsCrowd(front + [Someone(id, Parked("x", avoid + UniqueKeys(Accounts, front)))], ids + {id}, avoid)
  {
    var taken := avoid + UniqueKeys(Accounts, front);
    ParkedX(taken);
    OneMore(front, Someone(id, Parked("x", taken)));
  }

  lemma {:induction false} CrowdLast(before: seq<string>, id: string, avoid: set<string>)
    ensures Crowd(before + [id], avoid) ==
            Crowd(before, avoid) + [Someone(id, Parked("x", avoid + UniqueKeys(Accounts, Crowd(before, avoid))))]
    ensures Names(before + [id]) == Names(before) + {id}
  {
    assert (before + [id])[..|before|] == before;
  }

  lemma {:induction false} NoCrowd(avoid: set<string>)
    ensures IsCrowd([], {}, avoid) && Crowd([], avoid) == [] && Names([]) == {}
  {
  }

  lemma {:induction false} CrowdIs(ids: seq<string>, avoid: set<string>)
    requires forall i, j :: 0 <= i < j < |ids| ==> ids[i] != ids[j]
    ensures IsCrowd(Crowd(ids, avoid), Names(ids), avoid)
    decreases |ids|, 0
  {
    if |ids| == 0 {
      NoCrowd(avoid);
    } else {
      CrowdNext(ids[..|ids| - 1], ids[|ids| - 1], ids, avoid);
    }
  }

  lemma {:induction false} CrowdNext(before: seq<string>, id: string, ids: seq<string>, avoid: set<string>)
    requires ids == before + [id] && forall i, j :: 0 <= i < j < |ids| ==> ids[i] != ids[j]
    ensures IsCrowd(Crowd(ids, avoid), Names(ids), avoid)
    decreases |before|, 1
  {
    assert forall i :: 0 <= i < |before| ==> before[i] == ids[i];
    CrowdIs(before, avoid);
    CrowdLast(before, id, avoid);
    OneMoreInCrowd(Crowd(before, avoid), Names(before), id, avoid);
  }

  /** The accounts before the k-th row, under addresses of no importance. */
  function Before(rows: seq<Row>, k: nat, avoid: set<string>): seq<Row>
    requires k <= |rows|
  {
    Crowd(seq(k, j requires 0 <= j < k => rows[j].id), avoid)
  }

  lemma BeforeIs(rows: seq<Row>, k: nat, avoid: set<string>)
    requires k <= |rows| && DistinctIds(rows)
    ensures IsCrowd(Before(rows, k, avoid), Ids(rows[..k]), avoid)
  {
    var ids := seq(k, j requires 0 <= j < k => rows[j].id);
    CrowdIs(ids, avoid);
    SameIdSets(rows, k, ids);
  }

  lemma SameIdSets(rows: seq<Row>, k: nat, ids: seq<string>)
    requires k <= |rows| && |ids| == k && forall j :: 0 <= j < k ==> ids[j] == rows[j].id
    ensures Names(ids) == Ids(rows[..k])
  {
    forall x | x in Ids(rows[..k]) ensures x in ids {
      var r :| r in rows[..k] && r.id == x;
      var j :| 0 <= j < k && rows[..k][j] == r;
      assert ids[j] == x;
    }
    forall x | x in ids ensures x in Ids(rows[..k]) {
      var j :| 0 <= j < k && ids[j] == x;
      assert rows[..k][j] == rows[j] && rows[j] in rows[..k];
    }
  }

  /** A target with these accounts and nothing else. */
  function TargetFor(data: Db, live: seq<Row>): Db { map t | t in data :: if t.Accounts? then live else [] }

  lemma TargetTakes(data: Db, live: seq<Row>, o: Options)
    requires o == Options(true, false, false) && Sound(Accounts, live)
    ensures Commits(TargetFor(data, live), data, o) && SoundDb(TargetFor(data, live))
  {
    MovedFrame(TargetFor(data, live), data, o);
  }
}
