/** Ordered lists of names without repetition, as the scripts build them:
    `if name not in out: out.append(name)`. */
module NameLists {

  ghost predicate Distinct(s: seq<string>) { forall i, j :: 0 <= i < j < |s| ==> s[i] != s[j] }

  function Names(s: seq<string>): set<string> { set x | x in s }

  /** Each name once, where it first stands. */
  function Dedup(s: seq<string>): seq<string> {
    if s == [] then []
    else
      var front, last := Dedup(s[..|s| - 1]), s[|s| - 1];
      if last in front then front else front + [last]
  }

  /** The names that are not in `bad`, in order. */
  function Drop(s: seq<string>, bad: set<string>): seq<string> {
    if s == [] then []
    else
      var front, last := Drop(s[..|s| - 1], bad), s[|s| - 1];
      if last in bad then front else front + [last]
  }

  function Reverse(s: seq<string>): seq<string> {
    if s == [] then [] else [s[|s| - 1]] + Reverse(s[..|s| - 1])
  }

  lemma NamesAppend(s: seq<string>, x: string)
    ensures Names(s + [x]) == Names(s) + {x}
  {
    assert forall y :: y in s + [x] <==> y in s || y == x;
  }

  lemma NamesConcat(a: seq<string>, b: seq<string>)
    ensures Names(a + b) == Names(a) + Names(b)
  {
    assert forall x :: x in a + b <==> x in a || x in b;
  }

  /** Taking the last name off. */
  lemma NamesFront(s: seq<string>)
    requires s != []
    ensures Names(s) == Names(s[..|s| - 1]) + {s[|s| - 1]}
  {
    assert s == s[..|s| - 1] + [s[|s| - 1]];
    NamesAppend(s[..|s| - 1], s[|s| - 1]);
  }

  lemma {:induction false} DedupNames(s: seq<string>)
    ensures Names(Dedup(s)) == Names(s)
    ensures Distinct(Dedup(s))
  {
    if s != [] {
      var front := Dedup(s[..|s| - 1]);
      DedupNames(s[..|s| - 1]);
      NamesFront(s);
      NamesAppend(front, s[|s| - 1]);
    }
  }

  lemma {:induction false} DropNames(s: seq<string>, bad: set<string>)
    ensures Names(Drop(s, bad)) == Names(s) - bad
    ensures Distinct(s) ==> Distinct(Drop(s, bad))
  {
    if s != [] {
      var front, last := s[..|s| - 1], s[|s| - 1];
      DropNames(front, bad);
      NamesFront(s);
      NamesAppend(Drop(front, bad), last);
      if Distinct(s) && last !in bad {
        forall i | 0 <= i < |Drop(front, bad)| ensures Drop(front, bad)[i] != last {
          assert Drop(front, bad)[i] in Names(Drop(front, bad));
          assert Drop(front, bad)[i] in Names(front);
        }
      }
    }
  }

  lemma {:induction false} DropConcat(a: seq<string>, b: seq<string>, bad: set<string>)
    ensures Drop(a + b, bad) == Drop(a, bad) + Drop(b, bad)
  {
    if b == [] {
      assert a + b == a;
    } else {
      assert (a + b)[..|a + b| - 1] == a + b[..|b| - 1];
      DropConcat(a, b[..|b| - 1], bad);
    }
  }

  lemma {:induction false} DropDrop(s: seq<string>, a: set<string>, b: set<string>)
    ensures Drop(Drop(s, a), b) == Drop(s, a + b)
  {
    if s != [] {
      var front, last := s[..|s| - 1], s[|s| - 1];
      DropDrop(front, a, b);
      if last !in a {
        assert (Drop(front, a) + [last])[..|Drop(front, a)|] == Drop(front, a);
      }
    }
  }

  /** What a newer list puts ahead stays ahead; the older one keeps what is new in it. */
  lemma {:induction false} DedupConcat(a: seq<string>, b: seq<string>)
    ensures Dedup(a + b) == Dedup(a) + Drop(Dedup(b), Names(a))
  {
    if b == [] {
      assert a + b == a;
    } else {
      var front, last := b[..|b| - 1], b[|b| - 1];
      assert (a + b)[..|a + b| - 1] == a + front;
      DedupConcat(a, front);
      DedupNames(a);
      DedupNames(front);
      DropNames(Dedup(front), Names(a));
      assert last in Dedup(a + front) <==> last in Names(Dedup(a)) + Names(Drop(Dedup(front), Names(a)));
      if last !in Dedup(front) {
        assert (Dedup(front) + [last])[..|Dedup(front)|] == Dedup(front);
        assert last !in Names(Dedup(front));
      } else {
        assert last in Names(Dedup(front));
      }
    }
  }

  lemma {:induction false} ReverseLast(front: seq<string>, last: string)
    ensures Reverse(front + [last]) == [last] + Reverse(front)
  {
    assert (front + [last])[..|front|] == front;
  }

  lemma {:induction false} ReverseAt(s: seq<string>)
    ensures |Reverse(s)| == |s|
    ensures forall i :: 0 <= i < |s| ==> Reverse(s)[i] == s[|s| - 1 - i]
  {
    if s != [] {
      ReverseAt(s[..|s| - 1]);
    }
  }

  lemma {:induction false} ReverseNames(s: seq<string>)
    ensures Names(Reverse(s)) == Names(s)
  {
    if s != [] {
      var front, last := s[..|s| - 1], s[|s| - 1];
      assert s == front + [last];
      ReverseNames(front);
      ReverseLast(front, last);
      NamesAppend(front, last);
      NamesConcat([last], Reverse(front));
      assert Names([last]) == {last};
    }
  }

  lemma {:induction false} DistinctSize(s: seq<string>)
    requires Distinct(s)
    ensures |Names(s)| == |s|
  {
    if s != [] {
      var front, last := s[..|s| - 1], s[|s| - 1];
      DistinctSize(front);
      NamesFront(s);
      assert last !in Names(front);
    }
  }

  lemma {:induction false} DropNothing(s: seq<string>, bad: set<string>)
    requires Names(s) !! bad
    ensures Drop(s, bad) == s
  {
    if s != [] {
      var front, last := s[..|s| - 1], s[|s| - 1];
      NamesFront(s);
      DropNothing(front, bad);
    }
  }

  function Flatten(lists: seq<seq<string>>): seq<string> {
    if lists == [] then [] else Flatten(lists[..|lists| - 1]) + lists[|lists| - 1]
  }

  lemma {:induction false} FlattenAppend(lists: seq<seq<string>>, last: seq<string>)
    ensures Flatten(lists + [last]) == Flatten(lists) + last
  {
    assert (lists + [last])[..|lists|] == lists;
  }

  lemma {:induction false} FlattenPrepend(first: seq<string>, lists: seq<seq<string>>)
    ensures Flatten([first] + lists) == first + Flatten(lists)
  {
    if lists == [] {
      assert [first] + lists == [] + [first];
      FlattenAppend([], first);
      assert first + [] == [] + first;
    } else {
      var front, last := lists[..|lists| - 1], lists[|lists| - 1];
      FlattenPrepend(first, front);
      assert [first] + lists == ([first] + front) + [last];
      FlattenAppend([first] + front, last);
    }
  }

  lemma {:induction false} FlattenMember(lists: seq<seq<string>>, j: nat, x: string)
    requires j < |lists| && x in lists[j]
    ensures x in Flatten(lists)
  {
    if j < |lists| - 1 {
      FlattenMember(lists[..|lists| - 1], j, x);
    }
  }

  lemma {:induction false} FlattenFrom(lists: seq<seq<string>>, x: string)
    ensures x in Flatten(lists) ==> exists j :: 0 <= j < |lists| && x in lists[j]
  {
    if lists != [] && x in Flatten(lists) {
      var front := lists[..|lists| - 1];
      if x in Flatten(front) {
        FlattenFrom(front, x);
        var j :| 0 <= j < |front| && x in front[j];
        assert lists[j] == front[j];
      } else {
        assert x in lists[|lists| - 1];
      }
    }
  }
}
