/** Why a name is in the answer: the chain of assignments, or of loops, that leads to it
    (scripts/scan_hardwiring.py:283-328, 629-666). */
module NameDerivations {
  import opened Text
  import opened NameInference

  // ---- what an expression is text by ------------------------------------------------------------

  /** An expression that is text on its own: a string, an f-string, `str(..)`, or a call of a
      method that returns text. */
  ghost predicate TextLeaf(e: Expr) {
    || e == StrConst || e == JoinedStr
    || (e.Call? && e.func.Name? && e.func.id == "str")
    || (e.Call? && e.func.Attribute?
        && e.func.attr in {"lower", "upper", "casefold", "strip", "lstrip", "rstrip", "read_text", "join",
                           "format", "replace", "decode", "getvalue", "sub"})
  }

  /** One is a side of the addition, a value of the boolean operator or the base of the subscript
      that the other is. */
  ghost predicate Operand(e: Expr, x: Expr) {
    || (e.BinOp? && e.isAdd && (x == e.left || x == e.right))
    || (e.BoolOp? && x in e.values)
    || (e.Subscript? && x == e.value)
  }

  ghost predicate OperandPath(path: seq<Expr>) {
    path != [] && forall i :: 0 <= i < |path| - 1 ==> Operand(path[i], path[i + 1])
  }

  /** An expression comes down to another, through any number of operands. */
  ghost predicate ComesTo(e: Expr, x: Expr) {
    exists path :: OperandPath(path) && path[0] == e && path[|path| - 1] == x
  }

  lemma ComesToItself(e: Expr)
    ensures ComesTo(e, e)
  {
    assert OperandPath([e]);
  }

  lemma ComesFurther(e: Expr, f: Expr, x: Expr)
    requires Operand(e, f) && ComesTo(f, x)
    ensures ComesTo(e, x)
  {
    var path :| OperandPath(path) && path[0] == f && path[|path| - 1] == x;
    var longer := [e] + path;
    forall i | 0 <= i < |longer| - 1 ensures Operand(longer[i], longer[i + 1]) {
      assert i > 0 ==> Operand(path[i - 1], path[i]);
    }
    assert OperandPath(longer) && longer[|longer| - 1] == x;
  }

  ghost predicate TextAt(x: Expr, names: set<string>) { TextLeaf(x) || (x.Name? && x.id in names) }

  /** An operand of a text that is text itself. */
  lemma {:induction false} TextOperand(e: Expr, names: set<string>) returns (f: Expr)
    requires IsText(e, names) && (e.BinOp? || e.BoolOp? || e.Subscript?)
    ensures Operand(e, f) && IsText(f, names) && f < e
  {
    match e
    case BinOp(_, l, r) => f := if IsText(l, names) then l else r;
    case BoolOp(vs) => f :| f in vs && IsText(f, names);
    case Subscript(v, _) => f := v;
  }

  lemma {:induction false} TextHasReason(e: Expr, names: set<string>) returns (x: Expr)
    requires IsText(e, names)
    ensures ComesTo(e, x) && TextAt(x, names)
  {
    if e.BinOp? || e.BoolOp? || e.Subscript? {
      var f := TextOperand(e, names);
      x := TextHasReason(f, names);
      ComesFurther(e, f, x);
    } else {
      ComesToItself(e);
      x := e;
    }
  }

  lemma {:induction false} ReasonIsText(path: seq<Expr>, names: set<string>)
    requires OperandPath(path) && TextAt(path[|path| - 1], names)
    ensures IsText(path[0], names)
  {
    if |path| > 1 {
      var rest := path[1..];
      forall i | 0 <= i < |rest| - 1 ensures Operand(rest[i], rest[i + 1]) {
        assert Operand(path[i + 1], path[i + 2]);
      }
      ReasonIsText(rest, names);
      assert Operand(path[0], path[1]) && rest[0] == path[1];
    }
  }

  /** An expression is text exactly when it comes down to text on its own, or to a text name. */
  lemma {:induction false} IsTextExactly(e: Expr, names: set<string>)
    ensures IsText(e, names) <==> exists x :: ComesTo(e, x) && (TextLeaf(x) || (x.Name? && x.id in names))
  {
    if IsText(e, names) {
      var x := TextHasReason(e, names);
    }
    if x :| ComesTo(e, x) && (TextLeaf(x) || (x.Name? && x.id in names)) {
      var path :| OperandPath(path) && path[0] == e && path[|path| - 1] == x;
      ReasonIsText(path, names);
    }
  }

  // ---- which names are text ------------------------------------------------------------------------

  ghost predicate Assigns(n: Node, name: string) { n.Assign? && Name(name) in n.targets }

  /** The first assignment's value comes down to text on its own or to a `str` parameter, every
      later one's to a name the one before assigns, and the last assigns this name. */
  ghost predicate TextChain(params: seq<Param>, walk: seq<Node>, chain: seq<Node>, name: string)
    decreases |chain|
  {
    && chain != [] && chain[|chain| - 1] in walk && Assigns(chain[|chain| - 1], name)
    && var rhs, before := chain[|chain| - 1].rhs, chain[..|chain| - 1];
       if before == [] then
         exists x :: ComesTo(rhs, x)
                     && (TextLeaf(x) || (x.Name? && exists p :: p in params && p.isStr && p.name == x.id))
       else
         exists via :: ComesTo(rhs, Name(via)) && TextChain(params, walk, before, via)
  }

  ghost predicate TextName(params: seq<Param>, walk: seq<Node>, name: string) {
    (exists p :: p in params && p.isStr && p.name == name) || exists chain :: TextChain(params, walk, chain, name)
  }

  lemma ParamIsText(params: seq<Param>, name: string)
    ensures name in StrParams(params) <==> exists p :: p in params && p.isStr && p.name == name
  {
  }

  lemma {:induction false} ChainIsText(params: seq<Param>, walk: seq<Node>, names: set<string>, chain: seq<Node>,
                                       name: string)
    requires TextClosed(params, walk, names) && TextChain(params, walk, chain, name)
    ensures name in names
    decreases |chain|
  {
    var last, before := chain[|chain| - 1], chain[..|chain| - 1];
    IsTextExactly(last.rhs, names);
    if before == [] {
      var x :| ComesTo(last.rhs, x)
               && (TextLeaf(x) || (x.Name? && exists p :: p in params && p.isStr && p.name == x.id));
      if x.Name? {
        ParamIsText(params, x.id);
      }
    } else {
      var via :| ComesTo(last.rhs, Name(via)) && TextChain(params, walk, before, via);
      ChainIsText(params, walk, names, before, via);
      assert Name(via).Name?;
    }
    assert AssignRule(last, names);
  }

  lemma ChainGrows(params: seq<Param>, walk: seq<Node>, n: Node, via: string, name: string)
    requires n in walk && Assigns(n, name) && ComesTo(n.rhs, Name(via)) && TextName(params, walk, via)
    ensures TextName(params, walk, name)
  {
    if p :| p in params && p.isStr && p.name == via {
      var x := Name(via);
      assert ComesTo(n.rhs, x) && x.Name? && x.id == p.name;
      assert [n][..0] == [] && TextChain(params, walk, [n], name);
    } else {
      var chain :| TextChain(params, walk, chain, via);
      assert (chain + [n])[..|chain|] == chain;
      assert TextChain(params, walk, chain + [n], name);
    }
  }

  lemma ChainStarts(params: seq<Param>, walk: seq<Node>, n: Node, x: Expr, name: string)
    requires n in walk && Assigns(n, name) && ComesTo(n.rhs, x) && TextLeaf(x)
    ensures TextName(params, walk, name)
  {
    assert [n][..0] == [] && TextChain(params, walk, [n], name);
  }

  /** The names with a chain, among those that can have one. */
  ghost function WithChain(params: seq<Param>, walk: seq<Node>): set<string> {
    set name | name in StrParams(params) + AssignedNames(walk) && TextName(params, walk, name)
  }

  lemma {:induction false} RuleForChains(params: seq<Param>, walk: seq<Node>, n: Node, t: Expr)
    requires n in walk && n.Assign? && IsText(n.rhs, WithChain(params, walk)) && t in n.targets && t.Name?
    ensures t.id in WithChain(params, walk)
  {
    IsTextExactly(n.rhs, WithChain(params, walk));
    var x :| ComesTo(n.rhs, x) && (TextLeaf(x) || (x.Name? && x.id in WithChain(params, walk)));
    assert t == Name(t.id) && Assigns(n, t.id);
    if TextLeaf(x) {
      ChainStarts(params, walk, n, x, t.id);
    } else {
      assert x == Name(x.id);
      ChainGrows(params, walk, n, x.id, t.id);
    }
  }

  lemma {:induction false} ChainsAreClosed(params: seq<Param>, walk: seq<Node>)
    ensures TextClosed(params, walk, WithChain(params, walk))
  {
    forall name | name in StrParams(params) ensures name in WithChain(params, walk) {
      ParamIsText(params, name);
    }
    forall n | n in walk ensures AssignRule(n, WithChain(params, walk)) {
      if n.Assign? && IsText(n.rhs, WithChain(params, walk)) {
        forall t | t in n.targets && t.Name? ensures t.id in WithChain(params, walk) {
          RuleForChains(params, walk, n, t);
        }
      }
    }
  }

  /** `_text_names` finds a name exactly when it is a `str` parameter, or a chain of assignments
      leads to it from one, or from text on its own. */
  lemma {:induction false} TextNamesExactly(params: seq<Param>, walk: seq<Node>, names: set<string>, name: string)
    requires LeastText(params, walk, names)
    ensures name in names <==> TextName(params, walk, name)
  {
    ChainsAreClosed(params, walk);
    if name in names {
      assert name in WithChain(params, walk);
    }
    if p :| p in params && p.isStr && p.name == name {
      ParamIsText(params, name);
    }
    if chain :| TextChain(params, walk, chain, name) {
      ChainIsText(params, walk, names, chain, name);
    }
  }

  // ---- what an expression carries blocks by ------------------------------------------------------------

  /** One node stands right below the other. */
  ghost predicate Child(e: Expr, x: Expr) {
    || (e.Attribute? && x == e.value)
    || (e.Call? && (x == e.func || x in e.args))
    || (e.BinOp? && (x == e.left || x == e.right))
    || (e.BoolOp? && x in e.values)
    || (e.Subscript? && (x == e.value || x == e.slice))
    || (e.Other? && x in e.children)
  }

  ghost predicate ChildPath(path: seq<Expr>) {
    path != [] && forall i :: 0 <= i < |path| - 1 ==> Child(path[i], path[i + 1])
  }

  /** The node itself, or one anywhere below it. */
  ghost predicate Within(e: Expr, x: Expr) {
    exists path :: ChildPath(path) && path[0] == e && path[|path| - 1] == x
  }

  lemma WithinItself(e: Expr)
    ensures Within(e, e)
  {
    assert ChildPath([e]);
  }

  lemma WithinDeeper(e: Expr, f: Expr, x: Expr)
    requires Child(e, f) && Within(f, x)
    ensures Within(e, x)
  {
    var path :| ChildPath(path) && path[0] == f && path[|path| - 1] == x;
    var longer := [e] + path;
    forall i | 0 <= i < |longer| - 1 ensures Child(longer[i], longer[i + 1]) {
      assert i > 0 ==> Child(path[i - 1], path[i]);
    }
    assert ChildPath(longer) && longer[|longer| - 1] == x;
  }

  lemma {:induction false} WalkAllMembers(es: seq<Expr>, x: Expr)
    ensures x in WalkAll(es) <==> exists e :: e in es && x in Walk(e)
  {
    if es != [] {
      WalkAllMembers(es[1..], x);
      if e :| e in es && x in Walk(e) {
        assert e == es[0] || e in es[1..];
      }
      if e :| e in es[1..] && x in Walk(e) {
        assert e in es;
      }
      assert es[0] in es;
    }
  }

  /** What is walked below a node is walked below one of its children. */
  lemma {:induction false} WalkedBelowChild(e: Expr, x: Expr) returns (f: Expr)
    requires x in Walk(e) && x != e
    ensures Child(e, f) && x in Walk(f)
  {
    match e
    case Call(g, args) =>
      if x in Walk(g) {
        f := g;
      } else {
        WalkAllMembers(args, x);
        f :| f in args && x in Walk(f);
      }
    case BoolOp(vs) =>
      WalkAllMembers(vs, x);
      f :| f in vs && x in Walk(f);
    case Other(cs) =>
      WalkAllMembers(cs, x);
      f :| f in cs && x in Walk(f);
    case Attribute(v, _) => f := v;
    case BinOp(_, l, r) => f := if x in Walk(l) then l else r;
    case Subscript(v, i) => f := if x in Walk(v) then v else i;
  }

  lemma {:induction false} ChildIsWalked(e: Expr, f: Expr, x: Expr)
    requires Child(e, f) && x in Walk(f)
    ensures x in Walk(e)
  {
    match e
    case Call(g, args) =>
      WalkAllMembers(args, x);
      assert x in Walk(g) + WalkAll(args);
    case BoolOp(vs) => WalkAllMembers(vs, x);
    case Other(cs) => WalkAllMembers(cs, x);
    case _ =>
  }

  lemma {:induction false} WalkIsWithin(e: Expr, x: Expr)
    requires x in Walk(e)
    ensures Within(e, x)
  {
    if x == e {
      WithinItself(e);
    } else {
      var f := WalkedBelowChild(e, x);
      WalkIsWithin(f, x);
      WithinDeeper(e, f, x);
    }
  }

  lemma {:induction false} PathIsWalked(path: seq<Expr>)
    requires ChildPath(path)
    ensures path[|path| - 1] in Walk(path[0])
  {
    if |path| == 1 {
      assert path[0] in Walk(path[0]);
    } else {
      var rest := path[1..];
      forall i | 0 <= i < |rest| - 1 ensures Child(rest[i], rest[i + 1]) {
        assert Child(path[i + 1], path[i + 2]);
      }
      PathIsWalked(rest);
      assert Child(path[0], path[1]) && rest[0] == path[1];
      ChildIsWalked(path[0], path[1], path[|path| - 1]);
    }
  }

  lemma {:induction false} WalkExactly(e: Expr, x: Expr)
    ensures x in Walk(e) <==> Within(e, x)
  {
    if x in Walk(e) {
      WalkIsWithin(e, x);
    }
    if path :| ChildPath(path) && path[0] == e && path[|path| - 1] == x {
      PathIsWalked(path);
    }
  }

  // ---- carrier names --------------------------------------------------------------------------------------

  predicate CarrierPart(part: string) {
    part in {"block", "blocks", "bid", "bids", "roster", "peers", "vendored", "dual"}
  }

  /** The part stands in the text between underscores, or at an end. */
  ghost predicate PartOf(s: string, part: string) {
    exists i, j :: 0 <= i <= j <= |s| && s[i..j] == part && Bounded(s, i, j)
  }

  predicate Bounded(s: string, i: int, j: int) {
    0 <= i <= j <= |s| && (i == 0 || s[i - 1] == '_') && (j == |s| || s[j] == '_')
  }

  lemma {:induction false} FirstPart(s: string) returns (k: nat)
    ensures k <= |s| && '_' !in s[..k] && (k == |s| || s[k] == '_') && SplitUnderscore(s)[0] == s[..k]
    ensures SplitUnderscore(s)[1..] == if k == |s| then [] else SplitUnderscore(s[k + 1..])
  {
    if s == "" {
      k := 0;
    } else if s[0] == '_' {
      k := 0;
      assert ([""] + SplitUnderscore(s[1..]))[1..] == SplitUnderscore(s[1..]);
    } else {
      var tail := s[1..];
      var l := FirstPart(tail);
      k := l + 1;
      OneCharMore(s, l);
    }
  }

  lemma {:induction false} OneCharMore(s: string, l: nat)
    requires s != "" && s[0] != '_' && l <= |s[1..]| && '_' !in s[1..][..l]
    requires SplitUnderscore(s[1..])[0] == s[1..][..l]
    ensures '_' !in s[..l + 1] && SplitUnderscore(s)[0] == s[..l + 1]
    ensures SplitUnderscore(s)[1..] == SplitUnderscore(s[1..])[1..]
    ensures l < |s[1..]| ==> s[1..][l] == s[l + 1] && s[1..][l + 1..] == s[l + 2..]
  {
    assert s[..l + 1] == [s[0]] + s[1..][..l];
    var rest := SplitUnderscore(s[1..]);
    assert ([[s[0]] + rest[0]] + rest[1..])[1..] == rest[1..];
  }

  /** A part that starts no later than the first underscore is all there is before it. */
  lemma {:induction false} PartPlace(s: string, k: nat, i: int, j: int)
    requires k <= |s| && '_' !in s[..k] && (k == |s| || s[k] == '_') && Bounded(s, i, j) && '_' !in s[i..j]
    ensures (i == 0 && j == k) || i > k
  {
    forall t | 0 <= t < k ensures s[t] != '_' {
      assert s[..k][t] == s[t];
    }
    forall t | i <= t < j ensures s[t] != '_' {
      assert s[i..j][t - i] == s[t];
    }
  }

  lemma {:induction false} PartMovesDown(s: string, k: nat, i: int, j: int)
    requires k < |s| && Bounded(s, i, j) && i > k
    ensures Bounded(s[k + 1..], i - k - 1, j - k - 1) && s[k + 1..][i - k - 1..j - k - 1] == s[i..j]
  {
  }

  lemma {:induction false} PartMovesUp(s: string, k: nat, i: int, j: int)
    requires k < |s| && s[k] == '_' && Bounded(s[k + 1..], i, j)
    ensures Bounded(s, i + k + 1, j + k + 1) && s[i + k + 1..j + k + 1] == s[k + 1..][i..j]
  {
    assert s[k + 1..][i..j] == s[i + k + 1..j + k + 1];
  }

  lemma {:induction false} LaterPart(s: string, k: nat, part: string)
    requires k < |s| && '_' !in s[..k] && s[k] == '_' && '_' !in part
    ensures PartOf(s, part) <==> part == s[..k] || PartOf(s[k + 1..], part)
  {
    var rest := s[k + 1..];
    if i, j :| 0 <= i <= j <= |s| && s[i..j] == part && Bounded(s, i, j) {
      PartPlace(s, k, i, j);
      if i > k {
        PartMovesDown(s, k, i, j);
        assert PartOf(rest, part);
      } else {
        assert part == s[..k];
      }
    }
    if i, j :| 0 <= i <= j <= |rest| && rest[i..j] == part && Bounded(rest, i, j) {
      PartMovesUp(s, k, i, j);
      assert PartOf(s, part);
    }
    assert s[0..k] == s[..k] && Bounded(s, 0, k);
  }

  lemma {:induction false} SplitExactly(s: string, part: string)
    requires '_' !in part
    ensures part in SplitUnderscore(s) <==> PartOf(s, part)
    decreases |s|
  {
    var k := FirstPart(s);
    var parts := SplitUnderscore(s);
    assert parts == [parts[0]] + parts[1..];
    if k == |s| {
      assert s[0..k] == s && Bounded(s, 0, k);
      if i, j :| 0 <= i <= j <= |s| && s[i..j] == part && Bounded(s, i, j) {
        PartPlace(s, k, i, j);
        assert part == s;
      }
    } else {
      SplitExactly(s[k + 1..], part);
      LaterPart(s, k, part);
    }
  }

  /** A name carries blocks by itself exactly when, in lower case, one of these parts stands in it
      between underscores. */
  lemma CarrierNameExactly(name: string)
    ensures CarrierName(name) <==> exists part :: CarrierPart(part) && PartOf(Lower(name), part)
  {
    forall part | CarrierPart(part) ensures part in SplitUnderscore(Lower(name)) <==> PartOf(Lower(name), part) {
      SplitExactly(Lower(name), part);
    }
    assert forall part :: CarrierPart(part) <==> part in CARRIER_PARTS;
  }

  // ---- which names carry blocks -------------------------------------------------------------------------------

  ghost predicate Called(x: Expr, name: string) {
    name != "" && ((x.Name? && x.id == name) || (x.Attribute? && x.attr == name))
  }

  /** An expression carries blocks exactly when a name or attribute in it is bound, or is a
      carrier by itself. */
  lemma CarriesExactly(e: Expr, bound: set<string>)
    ensures Carries(e, bound)
            <==> exists x, name :: Within(e, x) && Called(x, name) && (name in bound || CarrierName(name))
  {
    if n :| n in Walk(e) && NodeName(n) != "" && (NodeName(n) in bound || CarrierName(NodeName(n))) {
      WalkExactly(e, n);
      assert Called(n, NodeName(n));
    }
    if x, name :| Within(e, x) && Called(x, name) && (name in bound || CarrierName(name)) {
      WalkExactly(e, x);
      assert NodeName(x) == name;
    }
  }

  ghost predicate Binds(n: Node, name: string) { n.Loop? && Within(n.target, Name(name)) }

  /** The first loop runs over what has a carrier in it, every later one over what has a name in it
      that the one before binds, and the last binds this name. */
  ghost predicate BlockChain(walk: seq<Node>, chain: seq<Node>, name: string)
    decreases |chain|
  {
    && chain != [] && chain[|chain| - 1] in walk && Binds(chain[|chain| - 1], name)
    && var over, before := chain[|chain| - 1].iter, chain[..|chain| - 1];
       exists x, via :: Within(over, x) && Called(x, via)
                        && if before == [] then CarrierName(via) else BlockChain(walk, before, via)
  }

  ghost predicate BlockName(walk: seq<Node>, name: string) { exists chain :: BlockChain(walk, chain, name) }

  lemma BoundExactly(target: Expr, name: string)
    ensures name in BoundBy(target) <==> Within(target, Name(name))
  {
    WalkExactly(target, Name(name));
    assert forall t: Expr :: t.Name? && t.id == name ==> t == Name(name);
  }

  lemma {:induction false} ChainIsBound(walk: seq<Node>, bound: set<string>, chain: seq<Node>, name: string)
    requires BlockClosed(walk, bound) && BlockChain(walk, chain, name)
    ensures name in bound
    decreases |chain|
  {
    var last, before := chain[|chain| - 1], chain[..|chain| - 1];
    var x, via :| Within(last.iter, x) && Called(x, via)
                  && if before == [] then CarrierName(via) else BlockChain(walk, before, via);
    if before != [] {
      ChainIsBound(walk, bound, before, via);
    }
    CarriesExactly(last.iter, bound);
    BoundExactly(last.target, name);
    assert LoopRule(last, bound);
  }

  lemma BlockChainGrows(walk: seq<Node>, n: Node, x: Expr, via: string, name: string)
    requires n in walk && Binds(n, name) && Within(n.iter, x) && Called(x, via)
    requires CarrierName(via) || BlockName(walk, via)
    ensures BlockName(walk, name)
  {
    if CarrierName(via) {
      assert [n][..0] == [] && BlockChain(walk, [n], name);
    } else {
      var chain :| BlockChain(walk, chain, via);
      assert (chain + [n])[..|chain|] == chain;
      assert BlockChain(walk, chain + [n], name);
    }
  }

  ghost function WithBlockChain(walk: seq<Node>): set<string> {
    set name | name in LoopTargets(walk) && BlockName(walk, name)
  }

  lemma {:induction false} BlockRule(walk: seq<Node>, n: Node)
    requires n in walk && n.Loop? && Carries(n.iter, WithBlockChain(walk))
    ensures BoundBy(n.target) <= WithBlockChain(walk)
  {
    CarriesExactly(n.iter, WithBlockChain(walk));
    var x, via :| Within(n.iter, x) && Called(x, via) && (via in WithBlockChain(walk) || CarrierName(via));
    TargetsInWalk(walk, n);
    forall name | name in BoundBy(n.target) ensures name in WithBlockChain(walk) {
      BoundExactly(n.target, name);
      BlockChainGrows(walk, n, x, via, name);
    }
  }

  lemma {:induction false} BlockChainsAreClosed(walk: seq<Node>)
    ensures BlockClosed(walk, WithBlockChain(walk))
  {
    forall n | n in walk ensures LoopRule(n, WithBlockChain(walk)) {
      if n.Loop? && Carries(n.iter, WithBlockChain(walk)) {
        BlockRule(walk, n);
      }
    }
  }

  /** `_block_bound_names` finds a name exactly when a chain of loops leads to it from one over a
      carrier. */
  lemma {:induction false} BlockBoundNamesExactly(walk: seq<Node>, bound: set<string>, name: string)
    requires LeastBlock(walk, bound)
    ensures name in bound <==> BlockName(walk, name)
  {
    BlockChainsAreClosed(walk);
    if name in bound {
      assert name in WithBlockChain(walk);
    }
    if chain :| BlockChain(walk, chain, name) {
      ChainIsBound(walk, bound, chain, name);
    }
  }
}
