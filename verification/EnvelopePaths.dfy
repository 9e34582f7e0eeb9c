/** Where a path written in a declaration, a read or a write leads, told without following it
    component by component (runtime/envelope.py:16-20, 22-44). */
module EnvelopePaths {
  import opened Common
  import opened AgentEnvelope
  import opened Text

  // ---- components that stand ---------------------------------------------------------------

  predicate Named(part: string) { part != "" && part != "." && part != ".." }

  /** The names less the ups. */
  function Balance(parts: seq<string>): int {
    if parts == [] then 0
    else
      var last := parts[|parts| - 1];
      Balance(parts[..|parts| - 1]) + if last == ".." then -1 else if Named(last) then 1 else 0
  }

  /** The balance after one place and up to another. */
  function Between(parts: seq<string>, i: nat, j: nat): int
    requires i < j <= |parts|
  {
    Balance(parts[i + 1..j])
  }

  /** A name stands when no stretch right after it goes up more often than it goes down. */
  ghost predicate Stands(parts: seq<string>, i: nat)
    requires i < |parts|
  {
    Named(parts[i]) && forall j :: i < j <= |parts| ==> Between(parts, i, j) >= 0
  }

  /** The names that stand, in order. */
  ghost function Standing(parts: seq<string>, from: nat): Path
    requires from <= |parts|
    decreases |parts| - from
  {
    if from == |parts| then [] else (if Stands(parts, from) then [parts[from]] else []) + Standing(parts, from + 1)
  }

  /** How far below a place the path ends. */
  ghost predicate Level(parts: seq<string>, places: seq<nat>, k: nat)
    requires k < |places| && places[k] < |parts|
  {
    Balance(parts[places[k] + 1..]) == |places| - 1 - k
  }

  ghost predicate InRange(places: seq<nat>, n: nat) { forall k :: 0 <= k < |places| ==> places[k] < n }

  ghost predicate Levels(parts: seq<string>, places: seq<nat>) {
    InRange(places, |parts|) && forall k :: 0 <= k < |places| ==> Level(parts, places, k)
  }

  ghost predicate Rising(places: seq<nat>) { forall k, l :: 0 <= k < l < |places| ==> places[k] < places[l] }

  /** This name is among the places exactly when it stands. */
  ghost predicate Placed(parts: seq<string>, places: seq<nat>, i: nat)
    requires i < |parts|
  {
    i in places <==> Stands(parts, i)
  }

  ghost predicate AllPlaces(parts: seq<string>, places: seq<nat>) {
    forall i :: 0 <= i < |parts| ==> Placed(parts, places, i)
  }

  /** The places of the names that stand. */
  ghost predicate Places(parts: seq<string>, places: seq<nat>) {
    Levels(parts, places) && Rising(places) && AllPlaces(parts, places)
  }

  lemma BalanceNext(parts: seq<string>, part: string, i: nat)
    requires i < |parts|
    ensures (parts + [part])[i + 1..] == parts[i + 1..] + [part]
    ensures Balance((parts + [part])[i + 1..])
            == Balance(parts[i + 1..]) + if part == ".." then -1 else if Named(part) then 1 else 0
  {
    var rest := parts[i + 1..] + [part];
    assert (parts + [part])[i + 1..] == rest && rest[..|rest| - 1] == parts[i + 1..];
  }

  /** One component more: a name still stands when it stood and the path has not come up to it. */
  lemma StandsNext(parts: seq<string>, part: string, i: nat)
    requires i < |parts|
    ensures Stands(parts + [part], i) <==> Stands(parts, i) && Balance((parts + [part])[i + 1..]) >= 0
  {
    var all := parts + [part];
    forall j | i < j <= |parts| ensures Between(all, i, j) == Between(parts, i, j) {
      assert all[i + 1..j] == parts[i + 1..j];
    }
    assert all[i + 1..|all|] == all[i + 1..] && Between(all, i, |all|) == Balance(all[i + 1..]);
  }

  lemma LastStands(parts: seq<string>, part: string)
    ensures Stands(parts + [part], |parts|) <==> Named(part)
  {
    var all := parts + [part];
    assert all[|parts| + 1..|all|] == [];
  }

  function PlacesNext(places: seq<nat>, at: nat, part: string): seq<nat> {
    if Named(part) then places + [at] else if part == ".." && places != [] then places[..|places| - 1] else places
  }

  lemma LevelNext(parts: seq<string>, places: seq<nat>, part: string, k: nat)
    requires k < |PlacesNext(places, |parts|, part)|
    requires k < |places| ==> places[k] < |parts| && Level(parts, places, k)
    ensures PlacesNext(places, |parts|, part)[k] <= |parts|
    ensures Level(parts + [part], PlacesNext(places, |parts|, part), k)
  {
    if k < |places| {
      assert PlacesNext(places, |parts|, part)[k] == places[k];
      BalanceNext(parts, part, places[k]);
    } else {
      assert (parts + [part])[|parts| + 1..] == [];
    }
  }

  lemma LevelsNext(parts: seq<string>, places: seq<nat>, part: string)
    requires Levels(parts, places)
    ensures Levels(parts + [part], PlacesNext(places, |parts|, part))
  {
    var all, next := parts + [part], PlacesNext(places, |parts|, part);
    assert InRange(next, |all|);
    forall k | 0 <= k < |next| ensures Level(all, next, k) {
      LevelNext(parts, places, part, k);
    }
  }

  lemma PlacesStand(parts: seq<string>, places: seq<nat>, part: string, i: nat)
    requires Levels(parts, places) && Rising(places) && i < |parts| && Placed(parts, places, i)
    ensures Placed(parts + [part], PlacesNext(places, |parts|, part), i)
  {
    StandsNext(parts, part, i);
    BalanceNext(parts, part, i);
    if i in places {
      var k :| 0 <= k < |places| && places[k] == i;
      assert Level(parts, places, k);
      StaysUnlessLast(places, |parts|, part, k);
    } else {
      assert i !in PlacesNext(places, |parts|, part);
    }
  }

  lemma StaysUnlessLast(places: seq<nat>, at: nat, part: string, k: nat)
    requires Rising(places) && k < |places| && places[k] < at
    ensures places[k] in PlacesNext(places, at, part) <==> (part == ".." ==> k < |places| - 1)
  {
    var next := PlacesNext(places, at, part);
    if part == ".." ==> k < |places| - 1 {
      assert next[k] == places[k];
    } else {
      forall l | 0 <= l < |next| ensures next[l] != places[k] {
        assert places[l] < places[k];
      }
    }
  }

  lemma RisingNext(places: seq<nat>, at: nat, part: string)
    requires Rising(places) && InRange(places, at)
    ensures Rising(PlacesNext(places, at, part))
  {
  }

  lemma AllPlacesNext(parts: seq<string>, places: seq<nat>, part: string)
    requires Places(parts, places)
    ensures AllPlaces(parts + [part], PlacesNext(places, |parts|, part))
  {
    forall i | 0 <= i < |parts + [part]| ensures Placed(parts + [part], PlacesNext(places, |parts|, part), i) {
      if i < |parts| {
        assert Placed(parts, places, i);
        PlacesStand(parts, places, part, i);
      } else {
        NewPlace(places, |parts|, part);
        LastStands(parts, part);
      }
    }
  }

  lemma NewPlace(places: seq<nat>, at: nat, part: string)
    requires InRange(places, at)
    ensures at in PlacesNext(places, at, part) <==> Named(part)
  {
    if Named(part) {
      assert PlacesNext(places, at, part)[|places|] == at;
    }
  }

  lemma PlacesGrow(parts: seq<string>, places: seq<nat>, part: string)
    requires Places(parts, places)
    ensures Places(parts + [part], PlacesNext(places, |parts|, part))
  {
    LevelsNext(parts, places, part);
    RisingNext(places, |parts|, part);
    AllPlacesNext(parts, places, part);
  }

  function PickedAt(parts: seq<string>, places: seq<nat>): Path
    requires InRange(places, |parts|)
  {
    seq(|places|, k requires 0 <= k < |places| => parts[places[k]])
  }

  lemma {:induction false} WalkAppended(at: Path, parts: seq<string>, part: string)
    ensures Walk(at, parts + [part]) == Enter(Walk(at, parts), part)
    decreases |parts|
  {
    if parts != [] {
      assert (parts + [part])[1..] == parts[1..] + [part];
      WalkAppended(Enter(at, parts[0]), parts[1..], part);
    }
  }

  lemma EnterPlaces(parts: seq<string>, places: seq<nat>, part: string)
    requires Places(parts, places)
    ensures Places(parts + [part], PlacesNext(places, |parts|, part))
    ensures PickedAt(parts + [part], PlacesNext(places, |parts|, part)) == Enter(PickedAt(parts, places), part)
  {
    PlacesGrow(parts, places, part);
  }

  lemma {:induction false} WalkPlaces(parts: seq<string>) returns (places: seq<nat>)
    ensures Places(parts, places) && Walk([], parts) == PickedAt(parts, places)
  {
    if parts == [] {
      places := [];
    } else {
      var before, part := parts[..|parts| - 1], parts[|parts| - 1];
      var earlier := WalkPlaces(before);
      assert before + [part] == parts;
      WalkAppended([], before, part);
      EnterPlaces(before, earlier, part);
      places := PlacesNext(earlier, |before|, part);
    }
  }

  lemma NotAPlace(parts: seq<string>, places: seq<nat>, from: nat, k: nat)
    requires AllPlaces(parts, places) && Rising(places) && from < |parts| && k <= |places|
    requires (forall l :: 0 <= l < k ==> places[l] < from) && (k < |places| ==> from < places[k])
    ensures Standing(parts, from) == Standing(parts, from + 1)
  {
    assert Placed(parts, places, from);
    forall l | 0 <= l < |places| ensures places[l] != from {
      assert l > k ==> places[k] < places[l];
    }
    assert [] + Standing(parts, from + 1) == Standing(parts, from + 1);
  }

  lemma {:induction false} APlace(parts: seq<string>, places: seq<nat>, k: nat)
    requires AllPlaces(parts, places) && k < |places| && places[k] < |parts|
    ensures Standing(parts, places[k]) == [parts[places[k]]] + Standing(parts, places[k] + 1)
  {
    assert Placed(parts, places, places[k]);
  }

  lemma {:induction false} StandingAtPlaces(parts: seq<string>, places: seq<nat>, from: nat, k: nat)
    requires Places(parts, places) && from <= |parts| && k <= |places|
    requires (forall l :: 0 <= l < k ==> places[l] < from) && (k < |places| ==> from <= places[k])
    ensures Standing(parts, from) == PickedAt(parts, places)[k..]
    decreases |parts| - from
  {
    if from == |parts| {
    } else if k < |places| && places[k] == from {
      APlace(parts, places, k);
      StandingAtPlaces(parts, places, from + 1, k + 1);
      PickedNext(parts, places, k);
    } else {
      NotAPlace(parts, places, from, k);
      StandingAtPlaces(parts, places, from + 1, k);
    }
  }

  lemma PickedNext(parts: seq<string>, places: seq<nat>, k: nat)
    requires Places(parts, places) && k < |places|
    ensures PickedAt(parts, places)[k..] == [parts[places[k]]] + PickedAt(parts, places)[k + 1..]
  {
  }

  // ---- written paths ----------------------------------------------------------------------------

  /** Components written out with slashes between them. */
  function Written(parts: seq<string>): string
    requires parts != []
  {
    if |parts| == 1 then parts[0] else parts[0] + "/" + Written(parts[1..])
  }

  predicate Slashless(parts: seq<string>) { forall c :: c in parts ==> '/' !in c }

  lemma {:induction false} SplitWritten(parts: seq<string>)
    requires parts != [] && Slashless(parts)
    ensures Split(Written(parts)) == parts
  {
    assert parts == [parts[0]] + parts[1..] && parts[0] in parts;
    if |parts| == 1 {
      SplitFirst(parts[0], "");
    } else {
      assert forall c :: c in parts[1..] ==> c in parts;
      SplitWritten(parts[1..]);
      SplitFirst(parts[0], Written(parts[1..]));
    }
  }

  /** Every path is written like that. */
  lemma {:induction false} WrittenSplit(rel: string)
    ensures Split(rel) != [] && Slashless(Split(rel)) && Written(Split(rel)) == rel
    decreases |rel|
  {
    HeadShort(rel);
    if |Head(rel)| < |rel| {
      var rest := rel[|Head(rel)| + 1..];
      WrittenSplit(rest);
      assert Split(rel)[1..] == Split(rest);
      assert rel == rel[..|Head(rel)|] + [rel[|Head(rel)|]] + rest;
    }
  }

  /** A path that begins with a slash starts at the top, any other at the root. */
  function FromTop(root: Path, parts: seq<string>): seq<string>
    requires parts != []
  {
    if |parts| > 1 && parts[0] == "" then parts else root + parts
  }

  lemma {:induction false} AbsoluteWritten(parts: seq<string>)
    requires parts != [] && Slashless(parts)
    ensures Absolute(Written(parts)) <==> |parts| > 1 && parts[0] == ""
  {
    assert parts[0] in parts;
    if parts[0] != "" {
      assert Written(parts)[0] == parts[0][0] && parts[0][0] in parts[0];
    }
  }

  lemma {:induction false} WalkFromRoot(root: Path, parts: seq<string>, more: seq<string>)
    ensures Walk(root, parts + more) == Walk(Walk(root, parts), more)
    decreases |parts|
  {
    if parts == [] {
      assert parts + more == more;
    } else {
      assert (parts + more)[1..] == parts[1..] + more;
      WalkFromRoot(Enter(root, parts[0]), parts[1..], more);
    }
  }

  lemma {:induction false} TargetOfParts(root: Path, parts: seq<string>)
    requires Canonical(root) && parts != [] && Slashless(parts)
    ensures Target(root, Written(parts)) == Standing(FromTop(root, parts), 0)
  {
    var all := FromTop(root, parts);
    SplitWritten(parts);
    AbsoluteWritten(parts);
    var places := WalkPlaces(all);
    StandingAtPlaces(all, places, 0, 0);
    assert PickedAt(all, places)[0..] == PickedAt(all, places);
    if !(|parts| > 1 && parts[0] == "") {
      WalkDown([], root);
      WalkFromRoot([], root, parts);
      assert [] + root == root;
    }
  }

  /** A written path is accepted exactly when the names that stand in it begin with the root, and
      is then the rest of them: `..` takes away the name before it that stands, while `.` and
      nothing count for nothing. */
  lemma {:induction false} ResolvesExactly(root: Path, parts: seq<string>, p: Path)
    requires Canonical(root) && parts != [] && Slashless(parts)
    ensures Resolve(root, Written(parts)) == Some(p) <==> Standing(FromTop(root, parts), 0) == root + p
  {
    TargetOfParts(root, parts);
    RestOf(root, Target(root, Written(parts)), p);
  }

  lemma RestOf(root: Path, target: Path, p: Path)
    ensures root <= target && target[|root|..] == p <==> target == root + p
  {
    if root <= target {
      assert target == root + target[|root|..];
    }
    assert (root + p)[|root|..] == p;
  }

  // ---- going up -----------------------------------------------------------------------------------

  /** Going up from the root is refused. */
  lemma UpIsRefused(root: Path)
    requires root != []
    ensures Resolve(root, "..").None?
  {
    SplitFirst("..", "");
    assert Walk(Enter(root, ".."), [".."][1..]) == root[..|root| - 1];
  }

  lemma {:induction false} WrittenConcat(a: seq<string>, b: seq<string>)
    requires a != [] && b != []
    ensures Written(a + b) == Written(a) + ("/" + Written(b))
  {
    if |a| == 1 {
      assert (a + b)[1..] == b;
    } else {
      assert (a + b)[1..] == a[1..] + b;
      WrittenConcat(a[1..], b);
    }
  }

  lemma {:induction false} PosixWritten(p: Path)
    requires p != []
    ensures Posix(p) == Written(p)
  {
    if |p| > 1 {
      PosixWritten(p[1..]);
    }
  }

  lemma {:induction false} WrittenBetween(p: Path, middle: string, q: Path)
    requires p != [] && q != []
    ensures Written(p + [middle] + q) == Posix(p) + ("/" + middle + "/") + Posix(q)
  {
    PosixWritten(p);
    PosixWritten(q);
    WrittenConcat([middle], q);
    WrittenConcat(p, [middle] + q);
    assert p + [middle] + q == p + ([middle] + q);
    Regrouped(Posix(p), middle, Posix(q));
  }

  lemma Regrouped(a: string, middle: string, b: string)
    ensures a + ("/" + (middle + ("/" + b))) == a + ("/" + middle + "/") + b
  {
    assert "/" + (middle + ("/" + b)) == ("/" + middle + "/") + b;
  }

  lemma {:induction false} MiddleTaken(root: Path, p: Path, middle: string, q: Path, left: Path)
    requires Canonical(root) && Canonical(p) && p != [] && Canonical(q) && q != [] && '/' !in middle
    requires Enter(root + p, middle) == root + left
    ensures Resolve(root, Written(p + [middle] + q)) == Some(left + q)
  {
    var parts := p + [middle] + q;
    CanonicalTail(p);
    SplitWritten(parts);
    AbsoluteWritten(parts);
    WalkBetween(root, p, middle, q, left);
    RestOf(root, root + (left + q), left + q);
  }

  lemma {:induction false} WalkBetween(root: Path, p: Path, middle: string, q: Path, left: Path)
    requires Canonical(p) && Canonical(q) && Enter(root + p, middle) == root + left
    ensures Walk(root, p + [middle] + q) == root + (left + q)
  {
    WalkDown(root, p);
    WalkAppended(root, p, middle);
    WalkFromRoot(root, p + [middle], q);
    WalkBelow(root, left, q);
  }

  lemma {:induction false} WalkBelow(root: Path, left: Path, q: Path)
    requires Canonical(q)
    ensures Walk(root + left, q) == root + (left + q)
  {
    WalkDown(root + left, q);
    assert root + left + q == root + (left + q);
  }

  lemma UpFrom(root: Path, p: Path)
    requires p != []
    ensures Enter(root + p, "..") == root + p[..|p| - 1]
  {
    assert (root + p)[..|root + p| - 1] == root + p[..|p| - 1];
  }

  lemma {:induction false} WrittenMiddleTaken(root: Path, p: Path, middle: string, q: Path, left: Path)
    requires Canonical(root) && Canonical(p) && p != [] && Canonical(q) && q != [] && '/' !in middle
    requires Enter(root + p, middle) == root + left
    ensures Resolve(root, Posix(p) + ("/" + middle + "/") + Posix(q)) == Some(left + q)
  {
    MiddleTaken(root, p, middle, q, left);
    WrittenBetween(p, middle, q);
  }

  lemma Literals()
    ensures "/" + ".." + "/" == "/../" && "/" + "." + "/" == "/./" && "/" + "" + "/" == "//"
    ensures '/' !in ".." && '/' !in "." && '/' !in ""
  {
  }

  /** Going up takes away the name before. */
  lemma {:induction false} UpTakesAway(root: Path, p: Path, q: Path)
    requires Canonical(root) && Canonical(p) && p != [] && Canonical(q) && q != []
    ensures Resolve(root, Posix(p) + "/../" + Posix(q)) == Some(p[..|p| - 1] + q)
  {
    Literals();
    UpFrom(root, p);
    WrittenMiddleTaken(root, p, "..", q, p[..|p| - 1]);
  }

  /** Going nowhere takes away nothing. */
  lemma {:induction false} DotsCountForNothing(root: Path, p: Path, q: Path)
    requires Canonical(root) && Canonical(p) && p != [] && Canonical(q) && q != []
    ensures Resolve(root, Posix(p) + "/./" + Posix(q)) == Some(p + q)
    ensures Resolve(root, Posix(p) + "//" + Posix(q)) == Some(p + q)
  {
    Literals();
    WrittenMiddleTaken(root, p, ".", q, p);
    WrittenMiddleTaken(root, p, "", q, p);
  }

  lemma {:induction false} TargetUp(root: Path, q: Path)
    requires root != [] && Canonical(root) && Canonical(q) && q != []
    ensures Target(root, "../" + Posix(q)) == root[..|root| - 1] + q
  {
    SplitPosix(q);
    SplitFirst("..", Posix(q));
    assert ".." + "/" + Posix(q) == "../" + Posix(q);
    assert ([".."] + q)[1..] == q;
    WalkDown(root[..|root| - 1], q);
  }

  /** A path that first goes up comes back below the root exactly when it names the root again. */
  lemma {:induction false} UpAndBackExactly(root: Path, q: Path)
    requires Canonical(root) && root != [] && Canonical(q) && q != []
    ensures Resolve(root, "../" + Posix(q)).Some? <==> root <= root[..|root| - 1] + q
    ensures Resolve(root, "../" + Posix(q)).Some? <==> q[0] == root[|root| - 1]
    ensures Resolve(root, "../" + Posix(q)).Some? ==> Resolve(root, "../" + Posix(q)) == Some(q[1..])
  {
    TargetUp(root, q);
    NamesItAgain(root, q);
  }

  lemma NamesItAgain(root: Path, q: Path)
    requires root != [] && q != []
    ensures root <= root[..|root| - 1] + q <==> q[0] == root[|root| - 1]
    ensures (root[..|root| - 1] + q)[|root|..] == q[1..]
  {
    var up := root[..|root| - 1];
    assert (up + q)[|root| - 1] == q[0];
    assert (up + q)[..|root| - 1] == up && root == up + [root[|root| - 1]];
  }

  /** A path from the top is accepted exactly when it begins with the root. */
  lemma {:induction false} FromTheTopExactly(root: Path, p: Path)
    requires Canonical(root) && Canonical(p) && p != []
    ensures Resolve(root, "/" + Posix(p)) == if root <= p then Some(p[|root|..]) else None
  {
    SplitPosix(p);
    SplitFirst("", Posix(p));
    assert "" + "/" + Posix(p) == "/" + Posix(p);
    assert ([""] + p)[1..] == p;
    WalkDown([], p);
    assert [] + p == p;
  }

  // ---- what is refused ---------------------------------------------------------------------------

  /** An entry that is no text, or a text of nothing but spaces, tabs, line ends and separators. */
  predicate NoName(item: Option<string>) {
    item.None? || forall c :: c in item.value ==> c as int in {9, 10, 11, 12, 13, 28, 29, 30, 31, 32}
  }

  /** A declaration is invalid exactly when it is no list, an empty one or one with an entry that
      names nothing; otherwise it escapes exactly when some entry does; otherwise what is declared
      is what its entries resolve to. */
  lemma GuardExactly(root: Path, f: Files)
    ensures var o := GuardOf(root, f);
            var valid := f.Listed? && f.items != [] && forall item :: item in f.items ==> !NoName(item);
            && (o == Halted("declaration_invalid") <==> !valid)
            && (o == Halted("path_escape") <==>
                  valid && exists item :: item in f.items && item.Some? && Resolve(root, item.value).None?)
            && (o.Fine? || o == Halted("declaration_invalid") || o == Halted("path_escape"))
            && (o.Fine? ==> forall p :: p in DeclaredBy(root, f) <==>
                  exists item :: item in f.items && item.Some? && Resolve(root, item.value) == Some(p))
  {
    assert "declaration_invalid"[0] != "path_escape"[0];
    if f.Listed? {
      forall i | 0 <= i < |f.items|
        ensures NoName(f.items[i]) <==> f.items[i].None? || Blank(f.items[i].value)
      {
        if f.items[i].Some? {
          BlankExactly(f.items[i].value);
        }
      }
      if ValidFiles(f) {
        assert forall item :: item in f.items ==> !NoName(item);
        DeclaredExactly(root, f);
      }
    }
  }

  lemma BlankExactly(s: string)
    ensures Blank(s) <==> NoName(Some(s))
  {
    forall c: char ensures IsSpace(c) <==> c as int in {9, 10, 11, 12, 13, 28, 29, 30, 31, 32} {}
    if Blank(s) {
      forall c | c in s ensures IsSpace(c) {
        var i :| 0 <= i < |s| && s[i] == c;
      }
    } else {
      var i :| 0 <= i < |s| && !IsSpace(s[i]);
      assert s[i] in s;
    }
  }

  lemma DeclaredExactly(root: Path, f: Files)
    requires ValidFiles(f)
    ensures Escaping(root, f) <==> exists item :: item in f.items && item.Some? && Resolve(root, item.value).None?
    ensures !Escaping(root, f) ==> forall p :: p in DeclaredBy(root, f) <==>
              exists item :: item in f.items && item.Some? && Resolve(root, item.value) == Some(p)
  {
    if i :| 0 <= i < |f.items| && Resolve(root, f.items[i].value).None? {
      assert f.items[i] in f.items;
    }
    if !Escaping(root, f) {
      forall p ensures p in DeclaredBy(root, f) <==>
                 exists item :: item in f.items && item.Some? && Resolve(root, item.value) == Some(p)
      {
        if p in DeclaredBy(root, f) {
          var i :| 0 <= i < |f.items| && Resolve(root, f.items[i].value).value == p;
          assert f.items[i] in f.items;
        }
      }
    }
  }

  /** A write passes exactly when its path is below the root and declared; otherwise it escapes or
      violates the envelope. */
  lemma CheckExactly(root: Path, declared: set<Path>, rel: string)
    ensures var o := CheckOf(root, declared, rel);
            && (o.Fine? <==> exists p :: p in declared && Resolve(root, rel) == Some(p))
            && (o == Halted("path_escape") <==> Resolve(root, rel).None?)
            && (o == Halted("envelope_violation") <==> exists p :: p !in declared && Resolve(root, rel) == Some(p))
            && !o.Crashed?
  {
    assert "path_escape"[0] != "envelope_violation"[0];
  }
}
