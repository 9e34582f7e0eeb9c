/** The picks of a cycle, and what they come to over many cycles
    (scripts/release_cycle.py:249-277). */
module RotationPicks {
  import opened NameLists
  import opened ReleaseRotation

  function Fresh(pool: seq<string>, s: State): seq<string> { Drop(pool, Names(s.tried) + s.certified) }

  function StillFailing(s: State): seq<string> { Drop(s.failing, s.certified) }

  function Repeats(failing: seq<string>, picks: nat): seq<string> {
    var most := if picks >= 2 then picks - 1 else 1;
    if |failing| <= most then failing else failing[..most]
  }

  /** Candidates in order, each once, until the cycle is full. */
  function Fill(chosen: seq<string>, candidates: seq<string>, picks: int): seq<string>
    decreases |candidates|
  {
    if candidates == [] || |chosen| >= picks then chosen
    else Fill(if candidates[0] in chosen then chosen else chosen + [candidates[0]], candidates[1..], picks)
  }

  function Chosen(pool: seq<string>, s: State, picks: nat): seq<string> {
    Fill(Repeats(StillFailing(s), picks), Fresh(pool, s) + StillFailing(s), picks)
  }

  function Select(pool: seq<string>, s: State, picks: int): Result<seq<string>> {
    if !(1 <= picks <= |pool|) then Err(PickCount)
    else if !(s.certified + Names(s.tried) <= Names(pool)) then Err(OutsidePool)
    else if !(Names(Chosen(pool, s, picks)) <= Names(pool)) then Err(NoSuchBlueprint)
    else Ok(Chosen(pool, s, picks))
  }

  /** `select_rotation`. */
  method SelectRotation(pool: seq<string>, s: State, picks: int) returns (r: Result<seq<string>>)
    ensures r == Select(pool, s, picks)
  {
    if !(1 <= picks <= |pool|) {
      return Err(PickCount);
    }
    if !(s.certified + Names(s.tried) <= Names(pool)) {
      return Err(OutsidePool);
    }
    var failing := Drop(s.failing, s.certified);
    var untried := Drop(pool, Names(s.tried) + s.certified);
    var most := if picks - 1 > 1 then picks - 1 else 1;
    var chosen := if |failing| <= most then failing else failing[..most];
    ghost var start := chosen;
    var candidates := untried + failing;
    var i := 0;
    while i < |candidates|
      invariant 0 <= i <= |candidates|
      invariant Fill(start, candidates, picks) == Fill(chosen, candidates[i..], picks)
    {
      if |chosen| >= picks {
        break;
      }
      assert candidates[i..][0] == candidates[i] && candidates[i..][1..] == candidates[i + 1..];
      if candidates[i] !in chosen {
        chosen := chosen + [candidates[i]];
      }
      i := i + 1;
    }
    assert chosen == Chosen(pool, s, picks);
    if !(Names(chosen) <= Names(pool)) {
      return Err(NoSuchBlueprint);
    }
    r := Ok(chosen);
  }

  // ---- what is chosen ----------------------------------------------------------

  function Min(a: nat, b: nat): nat { if a <= b then a else b }

  /** New names are appended as they come. */
  lemma {:induction false} FillNew(chosen: seq<string>, news: seq<string>, rest: seq<string>, picks: nat)
    requires Distinct(news) && Names(news) !! Names(chosen) && |chosen| <= picks
    ensures Fill(chosen, news + rest, picks) == Fill(chosen + news[..Min(|news|, picks - |chosen|)], rest, picks)
    decreases |news|
  {
    if news == [] {
      assert news + rest == rest && chosen + news[..0] == chosen;
    } else if |chosen| == picks {
      assert chosen + news[..0] == chosen;
    } else {
      var m := Min(|news|, picks - |chosen|);
      assert news[0] in Names(news);
      assert (news + rest)[0] == news[0] && (news + rest)[1..] == news[1..] + rest;
      forall x | x in Names(news[1..]) ensures x !in Names(chosen + [news[0]]) {
        assert x in Names(news);
      }
      FillNew(chosen + [news[0]], news[1..], rest, picks);
      assert chosen + [news[0]] + news[1..][..m - 1] == chosen + news[..m];
    }
  }

  /** Names already chosen are passed over. */
  lemma {:induction false} FillKnown(chosen: seq<string>, known: seq<string>, rest: seq<string>, picks: nat)
    requires Names(known) <= Names(chosen)
    ensures Fill(chosen, known + rest, picks) == Fill(chosen, rest, picks)
  {
    if known == [] {
      assert known + rest == rest;
    } else {
      assert known[0] in Names(known) && Names(known[1..]) <= Names(known);
      assert (known + rest)[0] == known[0] && (known + rest)[1..] == known[1..] + rest;
      FillKnown(chosen, known[1..], rest, picks);
    }
  }

  /** The failures beyond the repeats are not among what was chosen so far. */
  lemma RestIsNew(failing: seq<string>, untried: seq<string>, k: nat, f: nat)
    requires Distinct(failing) && Names(failing) !! Names(untried) && k <= |failing| && f <= |untried|
    ensures Distinct(failing[k..]) && Names(failing[k..]) !! Names(failing[..k] + untried[..f])
  {
    forall x | x in failing[k..] ensures x !in failing[..k] + untried[..f] {
      var i :| k <= i < |failing| && failing[i] == x;
      assert x in Names(failing);
      forall j | 0 <= j < f ensures untried[j] != x {
        assert untried[j] in Names(untried);
      }
    }
  }

  /** The picks in closed form: the latest failures, then fresh blueprints in pool
      order, then older failures while room is left. */
  lemma {:induction false} ChosenForm(failing: seq<string>, untried: seq<string>, picks: nat)
    requires picks >= 1 && Distinct(failing) && Distinct(untried) && Names(failing) !! Names(untried)
    ensures var k := |Repeats(failing, picks)|;
            var f := Min(|untried|, picks - k);
            var g := Min(|failing| - k, picks - k - f);
            && k <= picks && Repeats(failing, picks) == failing[..k]
            && Fill(failing[..k], untried + failing, picks) == failing[..k] + untried[..f] + failing[k..][..g]
  {
    var k := |Repeats(failing, picks)|;
    RepeatsLead(failing, picks);
    FillNew(failing[..k], untried, failing, picks);
    FillOlder(failing, untried, k, Min(|untried|, picks - k), picks);
  }

  lemma RepeatsLead(failing: seq<string>, picks: nat)
    requires picks >= 1
    ensures var k := |Repeats(failing, picks)|;
            && k <= picks && k <= |failing| && Repeats(failing, picks) == failing[..k]
            && Names(failing[..k]) <= Names(failing)
  {
  }

  lemma {:induction false} FillOlder(failing: seq<string>, untried: seq<string>, k: nat, f: nat, picks: nat)
    requires Distinct(failing) && Names(failing) !! Names(untried) && k <= |failing| && f <= |untried| && k + f <= picks
    ensures var g := Min(|failing| - k, picks - k - f);
            Fill(failing[..k] + untried[..f], failing, picks) == failing[..k] + untried[..f] + failing[k..][..g]
  {
    var second := failing[..k] + untried[..f];
    assert failing == failing[..k] + failing[k..];
    NamesConcat(failing[..k], untried[..f]);
    FillKnown(second, failing[..k], failing[k..], picks);
    RestIsNew(failing, untried, k, f);
    assert failing[k..] + [] == failing[k..];
    FillNew(second, failing[k..], [], picks);
  }

  /** The state is one that a history of reports can lead to. */
  ghost predicate Consistent(s: State) {
    Distinct(s.failing) && Names(s.failing) == Names(s.tried) - s.certified
  }

  lemma RotationConsistent(es: seq<Entry>, seed: Seed)
    ensures Consistent(StateOf(es, seed))
  {
    FailingIsTriedUncertified(es, seed);
  }

  /** What selection is made from: the failing and the fresh, which share nothing. */
  lemma Candidates(pool: seq<string>, s: State)
    requires Consistent(s) && Distinct(pool)
    ensures StillFailing(s) == s.failing
    ensures Distinct(Fresh(pool, s)) && Names(Fresh(pool, s)) == Names(pool) - Names(s.tried) - s.certified
    ensures Names(s.failing) !! Names(Fresh(pool, s))
  {
    DropNothing(s.failing, s.certified);
    DropNames(pool, Names(s.tried) + s.certified);
  }

  lemma PiecesDistinct(failing: seq<string>, untried: seq<string>, k: nat, f: nat, g: nat)
    requires Distinct(failing) && Distinct(untried) && Names(failing) !! Names(untried)
    requires k + g <= |failing| && f <= |untried|
    ensures Distinct(failing[..k] + untried[..f] + failing[k..][..g])
    ensures Names(failing[..k] + untried[..f] + failing[k..][..g]) <= Names(failing) + Names(untried)
  {
    var all := failing[..k] + untried[..f] + failing[k..][..g];
    forall i | 0 <= i < |all|
      ensures all[i] in (if k <= i < k + f then Names(untried) else Names(failing))
    {
      if k <= i < k + f {
        assert all[i] == untried[i - k];
      } else if i >= k + f {
        assert all[i] == failing[i - f];
      }
    }
    forall i, j | 0 <= i < j < |all| ensures all[i] != all[j] {
      assert all[i] in (if k <= i < k + f then Names(untried) else Names(failing));
      assert all[j] in (if k <= j < k + f then Names(untried) else Names(failing));
    }
  }

  lemma {:induction false} FormIsSound(failing: seq<string>, untried: seq<string>, picks: nat)
    requires picks >= 1 && Distinct(failing) && Distinct(untried) && Names(failing) !! Names(untried)
    ensures var chosen := Fill(Repeats(failing, picks), untried + failing, picks);
            && Distinct(chosen)
            && |chosen| == Min(picks, |failing| + |untried|)
            && Names(chosen) <= Names(failing) + Names(untried)
            && (failing != [] ==> chosen != [] && chosen[0] == failing[0])
  {
    ChosenForm(failing, untried, picks);
    var k := |Repeats(failing, picks)|;
    var f := Min(|untried|, picks - k);
    PiecesDistinct(failing, untried, k, f, Min(|failing| - k, picks - k - f));
  }

  /** The picks are distinct, fill the cycle as far as candidates go, come from the
      pool, never repeat a certified blueprint, and lead with the latest failure. */
  lemma PicksAreSound(pool: seq<string>, s: State, picks: nat)
    requires Consistent(s) && Distinct(pool) && 1 <= picks <= |pool|
    requires s.certified + Names(s.tried) <= Names(pool)
    ensures Select(pool, s, picks).Ok?
    ensures var chosen := Select(pool, s, picks).value;
            && Distinct(chosen)
            && |chosen| == Min(picks, |s.failing| + |Fresh(pool, s)|)
            && Names(chosen) <= Names(pool) - s.certified
            && (s.failing != [] ==> chosen[0] == s.failing[0])
  {
    Candidates(pool, s);
    FormIsSound(s.failing, Fresh(pool, s), picks);
  }

  /** A cycle builds a never-built blueprint exactly when one exists and either the
      cycle has at least two slots or nothing is failing. */
  lemma FreshPickedExactly(pool: seq<string>, s: State, picks: nat)
    requires Consistent(s) && Distinct(pool) && 1 <= picks <= |pool|
    requires s.certified + Names(s.tried) <= Names(pool)
    ensures Select(pool, s, picks).Ok?
    ensures (exists x :: x in Select(pool, s, picks).value && x in Fresh(pool, s)) <==>
            Fresh(pool, s) != [] && (picks >= 2 || s.failing == [])
  {
    PicksAreSound(pool, s, picks);
    Candidates(pool, s);
    var failing, untried := s.failing, Fresh(pool, s);
    ChosenForm(failing, untried, picks);
    var chosen, k := Select(pool, s, picks).value, |Repeats(failing, picks)|;
    if picks >= 2 || failing == [] {
      if untried != [] {
        assert chosen[k] == untried[0] && chosen[k] in chosen && untried[0] in untried;
      }
    } else {
      assert chosen == failing[..1];
      assert failing[0] in Names(failing);
      assert forall x :: x in untried ==> x in Names(untried);
    }
  }
}
