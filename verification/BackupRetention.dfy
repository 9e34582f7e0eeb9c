/** Taking a backup and pruning the old ones (backend/app/core/backup.py:406-420,
    backend/app/core/backup_scheduler.py:69-76, 195-246). */
module BackupRetention {
  import opened NameLists
  import opened Common
  import opened ArchiveNames

  const DEFAULT_KEEP := 14

  /** `keep_count`. */
  function KeepCount(raw: Setting): (keep: nat)
    ensures keep >= 1
    ensures raw == Number(keep) || (keep == 14 && forall n :: n >= 1 ==> raw != Number(n))
  {
    if raw.Number? && raw.value >= 1 then raw.value else DEFAULT_KEEP
  }

  // ---- the newest archives ---------------------------------------------------------------

  /** The archives newer than this one. */
  function Above(y: string, names: set<string>): set<string> { set x | x in names && Less(y, x) }

  function Newest(names: set<string>, k: nat): set<string> { set y | y in names && |Above(y, names)| < k }

  predicate Descending(s: seq<string>) {
    forall i, j :: 0 <= i < j < |s| ==> Less(s[j], s[i])
  }

  lemma {:induction false} ElementsCount(s: seq<string>)
    requires Descending(s)
    ensures |Names(s)| == |s|
  {
    if s == [] {
      assert Names(s) == {};
    } else {
      var front, last := s[..|s| - 1], s[|s| - 1];
      ElementsCount(front);
      assert last !in front by {
        LessOrder(last, last);
      }
      assert s == front + [last];
      assert Names(s) == Names(front) + {last};
    }
  }

  lemma AboveOf(s: seq<string>, i: nat)
    requires Descending(s) && i < |s|
    ensures Above(s[i], Names(s)) == Names(s[..i])
    ensures |Above(s[i], Names(s))| == i
  {
    ElementsCount(s[..i]);
    forall x | x in Above(s[i], Names(s)) ensures x in s[..i] {
      var j :| 0 <= j < |s| && s[j] == x;
      LessOrder(s[i], s[j]);
      assert j < i && s[..i][j] == x;
    }
    forall x | x in s[..i] ensures x in Above(s[i], Names(s)) {
      var j :| 0 <= j < i && s[..i][j] == x;
      assert s[j] in s;
    }
  }

  /** The first `k` of a descending listing are the `k` newest. */
  lemma NewestOf(s: seq<string>, k: nat)
    requires Descending(s)
    ensures Newest(Names(s), k) == Names(if k < |s| then s[..k] else s)
  {
    var kept := if k < |s| then s[..k] else s;
    forall y | y in Names(s) ensures y in Newest(Names(s), k) <==> y in kept {
      var i :| 0 <= i < |s| && s[i] == y;
      AboveOf(s, i);
      if i < k {
        assert kept[i] == y;
      } else if y in kept {
        var j :| 0 <= j < |kept| && kept[j] == y;
        LessOrder(s[j], s[j]);
        assert Less(s[i], s[j]);
      }
    }
  }

  // ---- sorting -------------------------------------------------------------------------------

  /** A name put where it belongs in a descending listing. */
  function Insert(x: string, s: seq<string>): seq<string> {
    if s == [] || Less(s[0], x) then [x] + s else [s[0]] + Insert(x, s[1..])
  }

  lemma {:induction false} DescendingCons(x: string, s: seq<string>)
    requires Descending(s) && forall y :: y in s ==> Less(y, x)
    ensures Descending([x] + s)
  {
  }

  lemma DescendingTail(s: seq<string>)
    requires s != [] && Descending(s)
    ensures Descending(s[1..]) && forall y :: y in s[1..] ==> Less(y, s[0])
  {
  }

  lemma {:induction false} ElementsCons(x: string, s: seq<string>)
    ensures Names([x] + s) == {x} + Names(s)
  {
  }

  lemma {:induction false} InsertKeeps(x: string, s: seq<string>)
    requires Descending(s) && x !in s
    ensures Descending(Insert(x, s)) && Names(Insert(x, s)) == Names(s) + {x}
    decreases |s|, 1
  {
    if s == [] {
      ElementsCons(x, []);
    } else {
      DescendingTail(s);
      assert s == [s[0]] + s[1..];
      ElementsCons(s[0], s[1..]);
      if Less(s[0], x) {
        forall y | y in s ensures Less(y, x) {
          if y != s[0] {
            LessChain(y, s[0], x);
          }
        }
        DescendingCons(x, s);
        ElementsCons(x, s);
      } else {
        InsertLater(x, s);
      }
    }
  }

  lemma {:induction false} InsertLater(x: string, s: seq<string>)
    requires s != [] && Descending(s[1..]) && x !in s && !Less(s[0], x)
    requires forall y :: y in s[1..] ==> Less(y, s[0])
    ensures Descending([s[0]] + Insert(x, s[1..]))
            && Names([s[0]] + Insert(x, s[1..])) == {s[0]} + Names(s[1..]) + {x}
    decreases |s|, 0
  {
    var rest := Insert(x, s[1..]);
    LessOrder(x, s[0]);
    InsertKeeps(x, s[1..]);
    forall y | y in rest ensures Less(y, s[0]) {
      assert y in Names(rest);
    }
    DescendingCons(s[0], rest);
    ElementsCons(s[0], rest);
  }

  /** `sorted(..., reverse=True)`. */
  method SortedDown(names: set<string>) returns (s: seq<string>)
    ensures Descending(s) && Names(s) == names
  {
    s := [];
    var rest := names;
    while rest != {}
      invariant Descending(s) && Names(s) + rest == names && Names(s) !! rest
      decreases |rest|
    {
      var x :| x in rest;
      InsertKeeps(x, s);
      s := Insert(x, s);
      rest := rest - {x};
    }
  }

  // ---- one run ---------------------------------------------------------------------------------

  /** How `create_backup` goes: an archive, a reported failure, or an exception that may
      leave a part-written archive behind. */
  datatype Creation = Made(name: string) | NotMade | Raising(left: set<string>)

  function Created(names: set<string>, c: Creation): set<string> {
    match c
    case Made(name) => names + {name}
    case NotMade => names
    case Raising(left) => names + left
  }

  /** The archives to be pruned that come before this one. */
  function Older(names: set<string>, keep: nat, x: string): set<string> {
    set y | y in names && y !in Newest(names, keep) && Less(x, y)
  }

  class Archives {
    var names: set<string>
    var lastOk: bool

    constructor (names: set<string>)
      ensures this.names == names && lastOk
    {
      this.names, lastOk := names, true;
    }

    /** `prune_backups`, newest of the old first. `stuck` are the files that cannot be deleted: it
        fails at the first of them that is to go, with all before it gone and none after. */
    method PruneBackups(keep: nat, stuck: set<string>) returns (removed: seq<string>, raised: bool)
      modifies this`names
      ensures names == old(names) - Names(removed) && Names(removed) <= old(names)
      ensures !raised ==> names == Newest(old(names), keep)
      ensures Newest(old(names), keep) <= names
      ensures Descending(removed) && Names(removed) !! stuck
      ensures raised <==> !(stuck !! old(names) - Newest(old(names), keep))
      ensures raised ==> exists x :: x in stuck && Names(removed) == Older(old(names), keep, x)
    {
      var archives := SortedDown(names);
      var stale := archives[if keep < |archives| then keep else |archives|..];
      StaleAndKept(archives, keep);
      removed, raised := [], false;
      var i := 0;
      while i < |stale|
        invariant 0 <= i <= |stale| && removed == stale[..i]
        invariant forall j :: 0 <= j < i ==> stale[j] !in stuck
        invariant names == old(names) - Names(removed)
      {
        assert stale[i] in Names(stale);
        if stale[i] in stuck {
          raised := true;
          BeforeStuck(archives, keep, stale, i);
          assert stale[i] in old(names) - Newest(old(names), keep);
          return;
        }
        names := names - {stale[i]};
        removed := removed + [stale[i]];
        i := i + 1;
      }
      assert removed == stale;
    }

    /** `run_backup_once`: a successful run keeps exactly the newest archives; a failed one
        never loses any of them, and either way the verdict is on record if it can be written. */
    method RunBackupOnce(c: Creation, raw: Setting, stuck: set<string>, writable: bool) returns (ok: bool)
      modifies this
      ensures ok ==> c.Made? && names == Newest(old(names) + {c.name}, KeepCount(raw))
      ensures !ok && !c.Made? ==> names == old(names) + if c.Raising? then c.left else {}
      ensures Newest(Created(old(names), c), KeepCount(raw)) <= names <= Created(old(names), c)
      ensures ok <==> c.Made? && stuck * (old(names) + {c.name}) <= Newest(old(names) + {c.name}, KeepCount(raw))
      ensures c.Made? ==> stuck * (old(names) + {c.name}) <= names <= old(names) + {c.name}
      ensures lastOk == if writable then ok else old(lastOk)
    {
      ok := false;
      match c {
        case Made(name) =>
          names := names + {name};
          var removed, raised := PruneBackups(KeepCount(raw), stuck);
          ok := !raised;
        case NotMade =>
        case Raising(left) => names := names + left;
      }
      if writable {
        lastOk := ok;
      }
    }
  }

  /** What a listing loses after its first `keep` is just what is not among the newest. */
  lemma StaleAndKept(s: seq<string>, keep: nat)
    requires Descending(s)
    ensures var stale := s[if keep < |s| then keep else |s|..];
            Names(stale) == Names(s) - Newest(Names(s), keep)
    ensures Newest(Names(s), keep) <= Names(s)
    ensures forall x :: x in s[if keep < |s| then keep else |s|..]
                ==> x in Names(s) && x !in Newest(Names(s), keep)
  {
    NewestOf(s, keep);
    var from := if keep < |s| then keep else |s|;
    assert s == s[..from] + s[from..];
    forall i, j | 0 <= i < from <= j < |s| ensures s[i] != s[j] {
      LessOrder(s[i], s[j]);
    }
  }

  lemma BeforeStuck(s: seq<string>, keep: nat, stale: seq<string>, i: nat)
    requires Descending(s) && stale == s[if keep < |s| then keep else |s|..] && i < |stale|
    ensures Names(stale[..i]) == Older(Names(s), keep, stale[i])
  {
    StaleAndKept(s, keep);
    forall y | y in Older(Names(s), keep, stale[i]) ensures y in stale[..i] {
      assert y in Names(stale);
      var j :| 0 <= j < |stale| && stale[j] == y;
      LessOrder(stale[i], y);
      assert j < i;
    }
    forall y | y in stale[..i] ensures y in Older(Names(s), keep, stale[i]) {
      assert y in Names(stale);
    }
  }

  // ---- retention over whole runs -----------------------------------------------------------------

  lemma {:induction false} AboveShrinks(x: string, y: string, names: set<string>)
    requires x in names && Less(y, x)
    ensures |Above(x, names)| < |Above(y, names)|
  {
    LessOrder(x, x);
    forall z | z in Above(x, names) ensures z in Above(y, names) {
      LessChain(y, x, z);
    }
    SmallerCount(Above(x, names), Above(y, names), x);
  }

  lemma SmallerCount(a: set<string>, b: set<string>, x: string)
    requires a <= b && x in b && x !in a
    ensures |a| < |b|
  {
    var c := b - a;
    assert b == a + c && x in c;
  }

  /** Every archive kept is newer than every one pruned. */
  lemma {:induction false} KeptAreNewer(names: set<string>, k: nat, x: string, y: string)
    requires x in Newest(names, k) && y in names && y !in Newest(names, k)
    ensures Less(y, x)
  {
    LessOrder(x, y);
    if Less(x, y) {
      AboveShrinks(y, x, names);
    }
  }

  /** As many are kept as asked for, or all there are. */
  lemma KeptCount(names: set<string>, k: nat)
    ensures |Newest(names, k)| == if k < |names| then k else |names|
  {
    var s := SomeListing(names);
    NewestOf(s, k);
    ElementsCount(s);
    if k < |s| {
      ElementsCount(s[..k]);
    }
  }

  lemma {:induction false} SomeListing(names: set<string>) returns (s: seq<string>)
    ensures Descending(s) && Names(s) == names
    decreases |names|
  {
    if names == {} {
      s := [];
    } else {
      var x :| x in names;
      var before := SomeListing(names - {x});
      assert x !in Names(before);
      InsertKeeps(x, before);
      s := Insert(x, before);
    }
  }

  lemma {:induction false} PrunedBefore(names: set<string>, k: nat, z: string, y: string)
    requires z in names && z !in Newest(names, k) && Less(y, z)
    ensures |Above(y, names)| >= k && |Above(y, Newest(names, k))| >= k
  {
    forall x | x in Newest(names, k) ensures x in Above(y, Newest(names, k)) {
      KeptAreNewer(names, k, x, z);
      LessChain(y, z, x);
    }
    assert Above(y, Newest(names, k)) == Newest(names, k);
    KeptCount(names, k);
    Subset(Newest(names, k), Above(y, names));
    Subset(Above(z, names), names);
  }

  /** A rank below `k` is the same before and after pruning. */
  lemma RankAfterPrune(names: set<string>, k: nat, m: string, y: string)
    ensures |Above(y, Newest(names, k) + {m})| < k <==> |Above(y, names + {m})| < k
  {
    var pruned := Newest(names, k);
    Subset(Above(y, pruned + {m}), Above(y, names + {m}));
    if z :| z in Above(y, names) && z !in pruned {
      PrunedBefore(names, k, z, y);
      Subset(Above(y, pruned), Above(y, pruned + {m}));
      Subset(Above(y, names), Above(y, names + {m}));
    } else {
      assert Above(y, pruned + {m}) == Above(y, names + {m});
    }
  }

  /** Pruning now and again after the next backup comes to pruning once, after it. */
  lemma PruneEachTime(names: set<string>, k: nat, m: string)
    ensures Newest(Newest(names, k) + {m}, k) == Newest(names + {m}, k)
  {
    forall y ensures y in Newest(Newest(names, k) + {m}, k) <==> y in Newest(names + {m}, k) {
      RankAfterPrune(names, k, m, y);
      if y in names && y !in Newest(names, k) {
        Subset(Above(y, names), Above(y, names + {m}));
      }
    }
  }

  /** The archives after successful runs that took these, one after the other. */
  function AfterRuns(names: set<string>, taken: seq<string>, k: nat): set<string> {
    if taken == [] then names else Newest(AfterRuns(names, taken[..|taken| - 1], k) + {taken[|taken| - 1]}, k)
  }

  lemma OneMore(names: set<string>, taken: seq<string>)
    requires taken != []
    ensures names + Names(taken) == names + Names(taken[..|taken| - 1]) + {taken[|taken| - 1]}
  {
    var front, last := taken[..|taken| - 1], taken[|taken| - 1];
    assert taken == front + [last];
    assert Names(taken) == Names(front) + {last};
  }

  /** After any series of successful runs the archives are exactly the newest `k` of all
      there ever were. */
  lemma {:induction false} RunsKeepTheNewest(names: set<string>, taken: seq<string>, k: nat)
    requires taken != []
    ensures AfterRuns(names, taken, k) == Newest(names + Names(taken), k)
  {
    var front, last := taken[..|taken| - 1], taken[|taken| - 1];
    var before := names + Names(front);
    OneMore(names, taken);
    assert AfterRuns(names, taken, k) == Newest(AfterRuns(names, front, k) + {last}, k);
    if front == [] {
      assert before == names;
    } else {
      RunsKeepTheNewest(names, front, k);
      PruneEachTime(before, k, last);
    }
  }

  /** Told by the clock: of archives taken at these moments, the kept ones are later than
      all the pruned ones, and a backup newer than the rest is kept. */
  lemma RetentionIsByTime(moments: set<Moment>, k: nat, a: Moment, b: Moment)
    requires forall m :: m in moments ==> Written(m)
    requires a in moments && b in moments
    ensures var names := set m | m in moments :: ArchiveName(m);
            && (ArchiveName(a) in Newest(names, k) && ArchiveName(b) !in Newest(names, k) ==> Earlier(b, a))
            && (k >= 1 && (forall m :: m in moments && m != a ==> Earlier(m, a)) ==> ArchiveName(a) in Newest(names, k))
  {
    var names := set m | m in moments :: ArchiveName(m);
    NamesOrderAsTime(b, a);
    if ArchiveName(a) in Newest(names, k) && ArchiveName(b) !in Newest(names, k) {
      KeptAreNewer(names, k, ArchiveName(a), ArchiveName(b));
    }
    if forall m :: m in moments && m != a ==> Earlier(m, a) {
      forall x | x in names ensures x !in Above(ArchiveName(a), names) {
        var m :| m in moments && ArchiveName(m) == x;
        NamesOrderAsTime(m, a);
        NamesOrderAsTime(a, m);
        NamesOrderAsTime(a, a);
      }
      assert Above(ArchiveName(a), names) == {};
    }
  }
}
