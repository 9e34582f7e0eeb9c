/** Which names hold text, and which hold block ids: two inferences over a syntax
    tree, iterated in place until nothing changes
    (scripts/scan_hardwiring.py:283-328, 629-666). */
module NameInference {
  import opened Common
  import opened Text

  datatype Expr =
    | StrConst | OtherConst | JoinedStr
    | Name(id: string)
    | Attribute(value: Expr, attr: string)
    | Call(func: Expr, args: seq<Expr>)
    | BinOp(isAdd: bool, left: Expr, right: Expr)
    | BoolOp(values: seq<Expr>)
    | Subscript(value: Expr, slice: Expr)
    | Other(children: seq<Expr>)

  /** A node of the walked tree, as far as the inferences look at it. */
  datatype Node = Assign(targets: seq<Expr>, rhs: Expr) | Loop(target: Expr, iter: Expr) | OtherNode

  datatype Param = Param(name: string, isStr: bool)

  const TEXT_CALLS: set<string> :=
    {"lower", "upper", "casefold", "strip", "lstrip", "rstrip", "read_text", "join", "format",
     "replace", "decode", "getvalue", "sub"}

  /** `_is_text`: does the expression evidently produce a string, given the names that do? */
  predicate IsText(e: Expr, names: set<string>) {
    match e
    case StrConst => true
    case JoinedStr => true
    case Name(id) => id in names
    case Call(f, _) => (f.Attribute? && f.attr in TEXT_CALLS) || (f.Name? && f.id == "str")
    case BinOp(isAdd, l, r) => isAdd && (IsText(l, names) || IsText(r, names))
    case BoolOp(vs) => exists v :: v in vs && IsText(v, names)
    case Subscript(v, _) => IsText(v, names)
    case _ => false
  }

  /** More text names never make an expression less of a text. */
  lemma {:induction false} IsTextMonotone(e: Expr, small: set<string>, large: set<string>)
    requires small <= large && IsText(e, small)
    ensures IsText(e, large)
  {
    match e
    case BinOp(_, l, r) =>
      if IsText(l, small) { IsTextMonotone(l, small, large); } else { IsTextMonotone(r, small, large); }
    case BoolOp(vs) =>
      var v :| v in vs && IsText(v, small);
      IsTextMonotone(v, small, large);
    case Subscript(v, _) => IsTextMonotone(v, small, large);
    case _ =>
  }

  function StrParams(params: seq<Param>): set<string> { set p | p in params && p.isStr :: p.name }

  ghost predicate AssignRule(n: Node, names: set<string>) {
    n.Assign? && IsText(n.rhs, names) ==> forall t :: t in n.targets && t.Name? ==> t.id in names
  }

  /** Closed under: str parameters are text; a name assigned from text is text. */
  ghost predicate TextClosed(params: seq<Param>, walk: seq<Node>, names: set<string>) {
    StrParams(params) <= names && forall n :: n in walk ==> AssignRule(n, names)
  }

  /** The smallest closed set. */
  ghost predicate LeastText(params: seq<Param>, walk: seq<Node>, names: set<string>) {
    TextClosed(params, walk, names) && BelowAllText(params, walk, names)
  }

  ghost predicate BelowAllText(params: seq<Param>, walk: seq<Node>, names: set<string>) {
    forall s: set<string> :: TextClosed(params, walk, s) ==> names <= s
  }

  lemma {:induction false} AssignedIsText(params: seq<Param>, walk: seq<Node>, names: set<string>, n: Node, t: Expr)
    requires BelowAllText(params, walk, names) && n in walk && n.Assign? && IsText(n.rhs, names)
    requires t in n.targets && t.Name?
    ensures BelowAllText(params, walk, names + {t.id})
  {
    forall s: set<string> | TextClosed(params, walk, s) ensures names + {t.id} <= s {
      IsTextMonotone(n.rhs, names, s);
      assert AssignRule(n, s);
    }
  }

  ghost function AssignedNames(walk: seq<Node>): set<string> {
    set n, t | n in walk && n.Assign? && t in n.targets && t.Name? :: t.id
  }

  /** `_text_names` returns the least closed set. */
  method TextNames(params: seq<Param>, walk: seq<Node>) returns (out: set<string>)
    ensures LeastText(params, walk, out)
  {
    out := StrParams(params);
    ghost var all := StrParams(params) + AssignedNames(walk);
    var changed := true;
    while changed
      invariant StrParams(params) <= out <= all
      invariant BelowAllText(params, walk, out)
      invariant !changed ==> forall n :: n in walk ==> AssignRule(n, out)
      decreases all - out, changed
    {
      changed := false;
      ghost var before := out;
      var i := 0;
      while i < |walk|
        invariant 0 <= i <= |walk|
        invariant before <= out <= all
        invariant BelowAllText(params, walk, out)
        invariant if changed then before < out else before == out
        invariant !changed ==> forall j :: 0 <= j < i ==> AssignRule(walk[j], out)
      {
        if walk[i].Assign? && IsText(walk[i].rhs, out) {
          var more, grew := AddTargets(params, walk, walk[i], out);
          assert more <= all;
          out := more;
          changed := changed || grew;
        }
        i := i + 1;
      }
    }
  }

  /** One assignment's targets. */
  method AddTargets(ghost params: seq<Param>, ghost walk: seq<Node>, n: Node, names: set<string>)
    returns (out: set<string>, grew: bool)
    requires n in walk && n.Assign? && IsText(n.rhs, names) && BelowAllText(params, walk, names)
    ensures names <= out <= names + AssignedNames(walk)
    ensures BelowAllText(params, walk, out)
    ensures if grew then names < out else names == out
    ensures forall t :: t in n.targets && t.Name? ==> t.id in out
  {
    out, grew := names, false;
    var k := 0;
    while k < |n.targets|
      invariant 0 <= k <= |n.targets|
      invariant names <= out <= names + AssignedNames(walk)
      invariant BelowAllText(params, walk, out)
      invariant if grew then names < out else names == out
      invariant forall j :: 0 <= j < k && n.targets[j].Name? ==> n.targets[j].id in out
    {
      var t := n.targets[k];
      if t.Name? && t.id !in out {
        IsTextMonotone(n.rhs, names, out);
        AssignedIsText(params, walk, out, n, t);
        assert t.id in AssignedNames(walk);
        out := out + {t.id};
        grew := true;
      }
      k := k + 1;
    }
  }

  /** The answer does not depend on the order in which the tree is walked, nor on how
      often a node turns up. */
  lemma TextOrderIndependent(params: seq<Param>, walk: seq<Node>, walk': seq<Node>, a: set<string>, b: set<string>)
    requires forall n :: n in walk <==> n in walk'
    requires LeastText(params, walk, a) && LeastText(params, walk', b)
    ensures a == b
  {
    assert TextClosed(params, walk', a);
    assert TextClosed(params, walk, b);
  }

  // ---- names that carry block ids --------------------------------------------------

  const CARRIER_PARTS: set<string> := {"block", "blocks", "bid", "bids", "roster", "peers", "vendored", "dual"}

  /** `s.split("_")`. */
  function SplitUnderscore(s: string): (parts: seq<string>)
    ensures parts != []
  {
    if s == "" then [""]
    else
      var rest := SplitUnderscore(s[1..]);
      if s[0] == '_' then [""] + rest else [[s[0]] + rest[0]] + rest[1..]
  }

  predicate CarrierName(name: string) {
    exists part :: part in SplitUnderscore(Lower(name)) && part in CARRIER_PARTS
  }

  /** Every node of an expression, itself first. */
  function Walk(e: Expr): seq<Expr> {
    [e] + match e
          case Attribute(v, _) => Walk(v)
          case Call(f, args) => Walk(f) + WalkAll(args)
          case BinOp(_, l, r) => Walk(l) + Walk(r)
          case BoolOp(vs) => WalkAll(vs)
          case Subscript(v, s) => Walk(v) + Walk(s)
          case Other(cs) => WalkAll(cs)
          case _ => []
  }

  function WalkAll(es: seq<Expr>): seq<Expr> {
    if es == [] then [] else Walk(es[0]) + WalkAll(es[1..])
  }

  function NodeName(e: Expr): string {
    if e.Name? then e.id else if e.Attribute? then e.attr else ""
  }

  /** `_carries_blocks`. */
  predicate Carries(e: Expr, bound: set<string>) {
    exists n :: n in Walk(e) && NodeName(n) != "" && (NodeName(n) in bound || CarrierName(NodeName(n)))
  }

  lemma CarriesMonotone(e: Expr, small: set<string>, large: set<string>)
    requires small <= large && Carries(e, small)
    ensures Carries(e, large)
  {
    var n :| n in Walk(e) && NodeName(n) != "" && (NodeName(n) in small || CarrierName(NodeName(n)));
    assert NodeName(n) in large || CarrierName(NodeName(n));
  }

  function BoundBy(target: Expr): set<string> { set t | t in Walk(target) && t.Name? :: t.id }

  ghost predicate LoopRule(n: Node, bound: set<string>) {
    n.Loop? && Carries(n.iter, bound) ==> BoundBy(n.target) <= bound
  }

  ghost predicate BlockClosed(walk: seq<Node>, bound: set<string>) { forall n :: n in walk ==> LoopRule(n, bound) }

  ghost predicate BelowAllBlock(walk: seq<Node>, bound: set<string>) {
    forall s: set<string> :: BlockClosed(walk, s) ==> bound <= s
  }

  ghost predicate LeastBlock(walk: seq<Node>, bound: set<string>) {
    BlockClosed(walk, bound) && BelowAllBlock(walk, bound)
  }

  lemma LoopTargetsBelow(walk: seq<Node>, bound: set<string>, n: Node)
    requires BelowAllBlock(walk, bound) && n in walk && n.Loop? && Carries(n.iter, bound)
    ensures BelowAllBlock(walk, bound + BoundBy(n.target))
  {
    forall s: set<string> | BlockClosed(walk, s) ensures bound + BoundBy(n.target) <= s {
      CarriesMonotone(n.iter, bound, s);
      assert LoopRule(n, s);
    }
  }

  ghost function LoopTargets(walk: seq<Node>): set<string> {
    set n, x | n in walk && n.Loop? && x in BoundBy(n.target) :: x
  }

  lemma TargetsInWalk(walk: seq<Node>, n: Node)
    requires n in walk && n.Loop?
    ensures BoundBy(n.target) <= LoopTargets(walk)
  {
    forall x | x in BoundBy(n.target) ensures x in LoopTargets(walk) {}
  }

  /** One node more has had its turn. */
  lemma RulesSoFar(walk: seq<Node>, i: nat, bound: set<string>)
    requires i < |walk| && LoopRule(walk[i], bound) && forall j :: 0 <= j < i ==> LoopRule(walk[j], bound)
    ensures forall j :: 0 <= j < i + 1 ==> LoopRule(walk[j], bound)
  {
  }

  lemma LessLeft<T>(all: set<T>, start: set<T>, bound: set<T>)
    requires start <= bound <= all && |start| != |bound|
    ensures all - bound < all - start
  {
    assert bound == start + (bound - start);
    assert bound - start != {};
    var x :| x in bound - start;
    assert x in all - start && x !in all - bound;
  }

  /** One walk over the tree. */
  method BlockPass(walk: seq<Node>, start: set<string>) returns (bound: set<string>)
    requires start <= LoopTargets(walk) && BelowAllBlock(walk, start)
    ensures start <= bound <= LoopTargets(walk) && BelowAllBlock(walk, bound)
    ensures bound == start ==> BlockClosed(walk, bound)
  {
    bound := start;
    var i := 0;
    while i < |walk|
      invariant 0 <= i <= |walk|
      invariant start <= bound <= LoopTargets(walk)
      invariant BelowAllBlock(walk, bound)
      invariant bound == start ==> forall j :: 0 <= j < i ==> LoopRule(walk[j], bound)
    {
      var n := walk[i];
      if n.Loop? && Carries(n.iter, bound) {
        LoopTargetsBelow(walk, bound, n);
        TargetsInWalk(walk, n);
        bound := bound + BoundBy(n.target);
      }
      if bound == start {
        RulesSoFar(walk, i, bound);
      }
      i := i + 1;
    }
  }

  /** `_block_bound_names` returns the least closed set. */
  method BlockBoundNames(walk: seq<Node>) returns (bound: set<string>)
    ensures LeastBlock(walk, bound)
  {
    bound := {};
    ghost var all := LoopTargets(walk);
    while true
      invariant bound <= all
      invariant BelowAllBlock(walk, bound)
      decreases all - bound
    {
      ghost var start := bound;
      var before := |bound|;
      bound := BlockPass(walk, bound);
      if |bound| == before {
        SameSize(start, bound);
        return;
      }
      LessLeft(all, start, bound);
    }
  }

  lemma BlockOrderIndependent(walk: seq<Node>, walk': seq<Node>, a: set<string>, b: set<string>)
    requires forall n :: n in walk <==> n in walk'
    requires LeastBlock(walk, a) && LeastBlock(walk', b)
    ensures a == b
  {
    assert BlockClosed(walk', a);
    assert BlockClosed(walk, b);
  }
}
