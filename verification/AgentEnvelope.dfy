/** The agent's envelope: which paths a run may write (runtime/envelope.py:12-44). Paths
    are resolved lexically; a path is the list of its components below `/`. */
module AgentEnvelope {
  import opened Common
  import opened Text

  type Path = seq<string>

  /** How a stage of the run ends: normally, in a structured halt, or in any other exception. */
  datatype Outcome = Fine | Halted(condition: string) | Crashed

  // ---- resolving -----------------------------------------------------------------------

  /** The text up to the first slash. */
  function Head(s: string): string {
    if s == "" || s[0] == '/' then "" else [s[0]] + Head(s[1..])
  }

  lemma {:induction false} HeadShort(s: string)
    ensures |Head(s)| <= |s| && Head(s) == s[..|Head(s)|]
    ensures |Head(s)| < |s| ==> s[|Head(s)|] == '/'
    ensures '/' !in Head(s)
  {
    if s != "" && s[0] != '/' {
      HeadShort(s[1..]);
    }
  }

  function Split(s: string): seq<string>
    decreases |s|
  {
    HeadShort(s);
    if |Head(s)| == |s| then [s] else [Head(s)] + Split(s[|Head(s)| + 1..])
  }

  /** One component met while resolving: `.` and nothing stay, `..` goes up. */
  function Enter(at: Path, part: string): Path {
    if part == "" || part == "." then at
    else if part == ".." then (if at == [] then [] else at[..|at| - 1])
    else at + [part]
  }

  function Walk(at: Path, parts: seq<string>): Path
    decreases |parts|
  {
    if parts == [] then at else Walk(Enter(at, parts[0]), parts[1..])
  }

  predicate Absolute(rel: string) { rel != "" && rel[0] == '/' }

  /** `(root / rel).resolve()`. */
  function Target(root: Path, rel: string): Path {
    Walk(if Absolute(rel) then [] else root, Split(rel))
  }

  /** `_resolve`, as the part below the root; none when the path escapes. */
  function Resolve(root: Path, rel: string): Option<Path> {
    var p := Target(root, rel);
    if root <= p then Some(p[|root|..]) else None
  }

  predicate Component(c: string) { c != "" && c != "." && c != ".." && '/' !in c }

  predicate Canonical(p: Path) { forall c :: c in p ==> Component(c) }

  lemma {:induction false} SplitPlain(s: string)
    ensures forall c :: c in Split(s) ==> '/' !in c
    decreases |s|
  {
    HeadShort(s);
    if |Head(s)| < |s| {
      SplitPlain(s[|Head(s)| + 1..]);
    }
  }

  lemma {:induction false} WalkCanonical(at: Path, parts: seq<string>)
    requires Canonical(at) && forall c :: c in parts ==> '/' !in c
    ensures Canonical(Walk(at, parts))
    decreases |parts|
  {
    if parts != [] {
      assert parts[0] in parts && forall c :: c in parts[1..] ==> c in parts;
      WalkCanonical(Enter(at, parts[0]), parts[1..]);
    }
  }

  /** A resolved path holds no `.`, `..`, empty or slashed component, and with the root in
      front it is the very target. */
  lemma ResolvedInside(root: Path, rel: string)
    requires Canonical(root)
    ensures Resolve(root, rel).Some? <==> root <= Target(root, rel)
    ensures Resolve(root, rel).Some?
            ==> Canonical(Resolve(root, rel).value) && root + Resolve(root, rel).value == Target(root, rel)
  {
    SplitPlain(rel);
    WalkCanonical(if Absolute(rel) then [] else root, Split(rel));
    var p := Target(root, rel);
    if root <= p {
      assert forall c :: c in p[|root|..] ==> c in p;
      assert root + p[|root|..] == p;
    }
  }

  /** `as_posix()` of a relative path. */
  function Posix(p: Path): string {
    if p == [] then "." else if |p| == 1 then p[0] else p[0] + "/" + Posix(p[1..])
  }

  lemma {:induction false} HeadOf(c: string, rest: string)
    requires '/' !in c
    ensures Head(c + "/" + rest) == c && Head(c) == c
  {
    if c == "" {
      assert ("" + "/" + rest)[0] == '/';
    } else {
      assert (c + "/" + rest)[1..] == c[1..] + "/" + rest;
      HeadOf(c[1..], rest);
    }
  }

  lemma {:induction false} SplitFirst(c: string, rest: string)
    requires '/' !in c
    ensures Split(c + "/" + rest) == [c] + Split(rest) && Split(c) == [c]
  {
    HeadOf(c, rest);
    var s := c + "/" + rest;
    assert s[|c| + 1..] == rest;
  }

  lemma CanonicalTail(p: Path)
    requires Canonical(p) && p != []
    ensures Component(p[0]) && Canonical(p[1..])
  {
    assert p[0] in p && forall c :: c in p[1..] ==> c in p;
  }

  lemma {:induction false} SplitPosix(p: Path)
    requires Canonical(p) && p != []
    ensures Split(Posix(p)) == p
  {
    CanonicalTail(p);
    if |p| == 1 {
      SplitFirst(p[0], "");
      assert p == [p[0]];
    } else {
      SplitPosix(p[1..]);
      SplitFirst(p[0], Posix(p[1..]));
      assert Posix(p) == p[0] + "/" + Posix(p[1..]);
      assert p == [p[0]] + p[1..];
    }
  }

  lemma {:induction false} PosixRelative(p: Path)
    requires Canonical(p)
    ensures !Absolute(Posix(p))
  {
    if p != [] {
      assert p[0] in p && p[0][0] in p[0];
    }
  }

  lemma {:induction false} WalkDown(at: Path, p: Path)
    requires Canonical(p)
    ensures Walk(at, p) == at + p
    decreases |p|
  {
    if p == [] {
      assert at + p == at;
    } else {
      assert p[0] in p && forall c :: c in p[1..] ==> c in p;
      WalkDown(at + [p[0]], p[1..]);
      assert at + [p[0]] + p[1..] == at + p;
    }
  }

  /** A declared name, written out and resolved again, is the same name. */
  lemma {:induction false} PosixResolvesBack(root: Path, p: Path)
    requires Canonical(root) && Canonical(p)
    ensures Resolve(root, Posix(p)) == Some(p)
  {
    if p == [] {
      SplitFirst(".", "");
      assert Walk(Enter(root, "."), ["."][1..]) == root;
      assert root[|root|..] == p;
    } else {
      SplitPosix(p);
      PosixRelative(p);
      WalkDown(root, p);
      assert (root + p)[|root|..] == p;
    }
  }

  // ---- the declaration --------------------------------------------------------------------

  predicate Blank(s: string) { forall i :: 0 <= i < |s| ==> IsSpace(s[i]) }

  /** The reply's "files": not a list, or a list whose entries may not be text. */
  datatype Files = NotAList | Listed(items: seq<Option<string>>)

  predicate ValidFiles(f: Files) {
    f.Listed? && f.items != [] && forall i :: 0 <= i < |f.items| ==> f.items[i].Some? && !Blank(f.items[i].value)
  }

  predicate Escaping(root: Path, f: Files)
    requires ValidFiles(f)
  {
    exists i :: 0 <= i < |f.items| && Resolve(root, f.items[i].value).None?
  }

  function GuardOf(root: Path, f: Files): Outcome {
    if !ValidFiles(f) then Halted("declaration_invalid")
    else if Escaping(root, f) then Halted("path_escape")
    else Fine
  }

  function DeclaredBy(root: Path, f: Files): set<Path>
    requires GuardOf(root, f).Fine?
  {
    set i | 0 <= i < |f.items| :: Resolve(root, f.items[i].value).value
  }

  function CheckOf(root: Path, declared: set<Path>, rel: string): Outcome {
    var p := Resolve(root, rel);
    if p.None? then Halted("path_escape")
    else if p.value !in declared then Halted("envelope_violation")
    else Fine
  }

  function Paths(s: seq<Path>): set<Path> { set p | p in s }

  class Envelope {
    const root: Path
    var declared: set<Path>
    var writes: seq<Path>

    constructor (root: Path)
      ensures this.root == root && declared == {} && writes == []
    {
      this.root := root;
      declared, writes := {}, [];
    }

    /** `guard`: the declared set replaces the old one, or nothing changes. */
    method Guard(f: Files) returns (o: Outcome)
      modifies this`declared
      ensures o == GuardOf(root, f)
      ensures declared == if o.Fine? then DeclaredBy(root, f) else old(declared)
    {
      if f.NotAList? || f.items == [] {
        return Halted("declaration_invalid");
      }
      var i := 0;
      while i < |f.items|
        invariant 0 <= i <= |f.items|
        invariant forall k :: 0 <= k < i ==> f.items[k].Some? && !Blank(f.items[k].value)
      {
        if f.items[i].None? || Blank(f.items[i].value) {
          return Halted("declaration_invalid");
        }
        i := i + 1;
      }
      var found: set<Path> := {};
      i := 0;
      while i < |f.items|
        invariant 0 <= i <= |f.items|
        invariant forall k :: 0 <= k < i ==> Resolve(root, f.items[k].value).Some?
        invariant forall k :: 0 <= k < i ==> Resolve(root, f.items[k].value).value in found
        invariant forall p :: p in found ==> exists k :: 0 <= k < i && Resolve(root, f.items[k].value) == Some(p)
      {
        var p := Resolve(root, f.items[i].value);
        if p.None? {
          return Halted("path_escape");
        }
        found := found + {p.value};
        i := i + 1;
      }
      declared := found;
      o := Fine;
    }

    method CheckWrite(rel: string) returns (o: Outcome)
      ensures o == CheckOf(root, declared, rel)
      ensures o.Fine? ==> Resolve(root, rel).Some?
    {
      var p := Resolve(root, rel);
      if p.None? {
        return Halted("path_escape");
      }
      if p.value !in declared {
        return Halted("envelope_violation");
      }
      o := Fine;
    }

    method RecordWrite(rel: string)
      requires Resolve(root, rel).Some?
      modifies this`writes
      ensures writes == old(writes) + [Resolve(root, rel).value]
    {
      writes := writes + [Resolve(root, rel).value];
    }

    /** `deviations`: when every write was declared, the two lists split the declared set. */
    method Deviations() returns (notWritten: set<Path>, written: set<Path>)
      ensures written == Paths(writes) && notWritten == declared - written
      ensures Paths(writes) <= declared ==> notWritten !! written && notWritten + written == declared
    {
      written := {};
      var i := 0;
      while i < |writes|
        invariant 0 <= i <= |writes|
        invariant written == Paths(writes[..i])
      {
        written := written + {writes[i]};
        i := i + 1;
      }
      assert writes[..i] == writes;
      notWritten := declared - written;
    }
  }
}
