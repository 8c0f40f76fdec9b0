/**
 The side condition under which the resolver and the step-by-step walk agree is
 exact: for every link text that is not harmless there is a file system, with
 no other untidy link, on which the two disagree about where a path leads.
 */
module TidyNecessary {
  import opened Wrappers
  import opened Paths
  import opened Resolver
  import opened ChrootWalk

  // ------------------------------------------------------------- statement

  /** Every link is harmless or has the given text. */
  ghost predicate OnlyUntidy(fs: Tree, text: string) {
    forall p :: p in fs && fs[p].Link? ==> fs[p].text == text || Harmless(Components(fs[p].text))
  }

  /** Both readings find the same path, or neither finds one. */
  predicate SameAnswer(fs: Tree, root: Path, target: string) {
    var r, w := Resolve(fs, root, target), Walk(fs, root, [], Components(target), 0);
    r.Ok? == w.Ok? && (r.Ok? ==> r.value == w.value)
  }

  /** On every file system whose links are harmless or have this text, the readings agree. */
  ghost predicate AlwaysAgrees(text: string) {
    forall fs, root, target ::
      WellFormed(fs) && IsDir(fs, root) && OnlyUntidy(fs, text) && IsAbsolute(target) && Harmless(Components(target))
      ==> SameAnswer(fs, root, target)
  }

  // ---------------------------------------------------------------- pieces

  function Rep(x: string, n: nat): (s: seq<string>)
    ensures |s| == n && forall i :: 0 <= i < n ==> s[i] == x
  {
    seq(n, _ => x)
  }

  /** All prefixes of a path. */
  function Chain(p: Path): (ps: set<Path>)
    ensures forall q :: q in ps <==> q <= p
  {
    if p == [] then {[]}
    else
      var shorter := Chain(p[..|p| - 1]);
      LongerChain(p, shorter);
      shorter + {p}
  }

  lemma LongerChain(p: Path, shorter: set<Path>)
    requires p != [] && forall q :: q in shorter <==> q <= p[..|p| - 1]
    ensures forall q :: q in shorter + {p} <==> q <= p
  {
    forall q: Path
      ensures q in shorter + {p} <==> q <= p
    {
      if q <= p && q != p {
        assert q == p[..|q|];
      }
    }
  }

  /** Every place the walk stands at while it follows `cs` from `stack`. */
  function Visited(stack: Path, cs: seq<Component>): (ps: set<Path>)
    ensures Chain(stack) <= ps
    decreases cs
  {
    Chain(stack) + if cs == [] then {} else Visited(After(stack, cs[0]), cs[1..])
  }

  function After(stack: Path, c: Component): Path {
    match c
    case Normal(name) => stack + [name]
    case ParentDir => if stack == [] then [] else stack[..|stack| - 1]
    case _ => stack
  }

  function Settled(stack: Path, cs: seq<Component>): Path
    decreases cs
  {
    if cs == [] then stack else Settled(After(stack, cs[0]), cs[1..])
  }

  ghost predicate PrefixClosed(ps: set<Path>) {
    forall p :: p in ps ==> Chain(p) <= ps
  }

  lemma {:induction false} VisitedClosed(stack: Path, cs: seq<Component>)
    ensures PrefixClosed(Visited(stack, cs))
    decreases cs
  {
    if cs != [] {
      VisitedClosed(After(stack, cs[0]), cs[1..]);
    }
  }

  /** A stack standing in the chain of `g`, below the place the trap leads to. */
  predicate Inside(stack: Path, g: string, k: nat, steps: nat) {
    |stack| > steps && stack[0] == g && (|stack| >= k >= 1 ==> stack[k - 1] != g)
  }

  ghost predicate Tail(cs: seq<Component>, g: string, l: string) {
    forall c :: c in cs ==> c.ParentDir? || (c.Normal? && c.name != g && c.name != l)
  }

  /** Everything the walk visits there starts with `g`, avoids `l` and never enters the trap. */
  lemma {:induction false} VisitedInside(stack: Path, cs: seq<Component>, g: string, l: string, k: nat)
    requires k >= 1 && Tail(cs, g, l) && Inside(stack, g, k, |cs|) && l !in stack && l != g
    ensures Inside(Settled(stack, cs), g, k, 0)
    ensures forall p :: p in Visited(stack, cs) ==>
              (p == [] || p[0] == g) && l !in p && (|p| >= k ==> p[k - 1] != g)
    decreases cs
  {
    if cs != [] {
      assert cs[0] in cs;
      var next := After(stack, cs[0]);
      assert Tail(cs[1..], g, l);
      VisitedInside(next, cs[1..], g, l, k);
    }
  }

  // -------------------------------------------------------------- the walk

  /** The walk over names that are there and are not links. */
  lemma {:induction false} WalkPlain(fs: Tree, cur: Path, names: seq<string>, more: seq<Component>, followed: nat)
    requires followed <= LINK_BUDGET
    requires forall i :: 0 < i <= |names| ==> cur + names[..i] in fs && !fs[cur + names[..i]].Link?
    ensures Walk(fs, [], cur, Normals(names) + more, followed) == Walk(fs, [], cur + names, more, followed)
    decreases |names|
  {
    if names == [] {
      assert Normals(names) + more == more && cur + names == cur;
    } else {
      var n, rest := names[0], names[1..];
      assert cur + names[..1] == cur + [n] == [] + cur + [n];
      assert (Normals(names) + more)[1..] == Normals(rest) + more;
      forall i | 0 < i <= |rest|
        ensures cur + [n] + rest[..i] in fs && !fs[cur + [n] + rest[..i]].Link?
      {
        assert cur + [n] + rest[..i] == cur + names[..i + 1];
      }
      WalkPlain(fs, cur + [n], rest, more, followed);
      assert cur + [n] + rest == cur + names;
    }
  }

  /** The walk over one link. */
  lemma WalkLink(fs: Tree, cur: Path, n: string, more: seq<Component>, followed: nat)
    requires followed < LINK_BUDGET && cur + [n] in fs && fs[cur + [n]].Link?
    ensures Walk(fs, [], cur, [Normal(n)] + more, followed)
            == Walk(fs, [], cur, Components(fs[cur + [n]].text) + more, followed + 1)
  {
    assert ([Normal(n)] + more)[1..] == more;
    assert [] + cur + [n] == cur + [n];
  }

  /** Where everything visited is a directory, the walk arrives. */
  lemma {:induction false} WalkVisited(fs: Tree, stack: Path, cs: seq<Component>, followed: nat)
    requires followed <= LINK_BUDGET && |stack| > |cs|
    requires forall c :: c in cs ==> c.ParentDir? || c.Normal?
    requires forall p :: p in Visited(stack, cs) ==> IsDir(fs, p)
    ensures Walk(fs, [], stack, cs, followed) == Ok(Settled(stack, cs))
    decreases cs
  {
    assert [] + stack == stack;
    if cs != [] {
      assert cs[0] in cs;
      var next := After(stack, cs[0]);
      assert next in Visited(next, cs[1..]);
      assert IsDir(fs, stack) && IsDir(fs, next);
      if cs[0].Normal? {
        assert [] + stack + [cs[0].name] == next;
      }
      WalkVisited(fs, next, cs[1..], followed);
    }
  }

  // -------------------------------------------------------------- the trap

  /**
   A text read from `base`: names `ns`, a `..`, and `rest`. The last of the
   names is made a link to the bottom of a chain of `g`; `f`, `g` and `l` are
   names the text does not use.
   */
  datatype Trap = Trap(
    text: string, head: seq<Component>, base: Path, ns: seq<string>, rest: seq<Component>,
    f: string, g: string, l: string, depth: nat, k: nat)
  {
    function Dirs(): set<Path> {
      Chain(Rep(f, depth)) + Chain(base + Init(ns)) + Chain(Rep(g, k)) + Bottom()
    }

    /** What the rest of the text visits, read one name above the end of the chain of `g`. */
    function Bottom(): set<Path> {
      Visited(Rep(g, if k == 0 then 0 else k - 1), rest)
    }

    function Inner(): Path {
      base + ns
    }

    function Outer(): Path {
      Rep(f, depth) + [l]
    }

    function Tree(): Tree {
      (map p | p in Dirs() :: Dir)[Inner() := Link(Text(Rep(g, k)))][Outer() := Link(text)]
    }
  }

  function Init(ns: seq<string>): seq<string> {
    if ns == [] then [] else ns[..|ns| - 1]
  }

  ghost predicate Foreign(t: Trap, n: string) {
    n != t.f && n != t.g && n != t.l
  }

  ghost predicate Set(t: Trap) {
    && t.k >= 2 && t.k > |t.rest| + 1 && t.ns != []
    && AllPlain(t.ns) && IsPlain(t.f) && IsPlain(t.g) && IsPlain(t.l)
    && t.f != t.g && t.f != t.l && t.g != t.l
    && (forall n :: n in t.ns ==> Foreign(t, n))
    && (forall n :: n in t.base ==> n == t.f)
    && Tail(t.rest, t.g, t.l)
  }

  lemma UnionClosed(a: set<Path>, b: set<Path>)
    requires PrefixClosed(a) && PrefixClosed(b)
    ensures PrefixClosed(a + b)
  {
    hide Chain;
  }

  lemma ChainClosed(p: Path)
    ensures PrefixClosed(Chain(p))
  {
    hide Chain;
  }

  lemma BottomClosed(t: Trap)
    ensures PrefixClosed(t.Bottom())
  {
    hide PrefixClosed;
    VisitedClosed(Rep(t.g, if t.k == 0 then 0 else t.k - 1), t.rest);
  }

  lemma DirsClosed(t: Trap)
    ensures PrefixClosed(t.Dirs())
  {
    hide PrefixClosed, Chain, Trap.Bottom, Rep, Init;
    var a, b, c := Chain(Rep(t.f, t.depth)), Chain(t.base + Init(t.ns)), Chain(Rep(t.g, t.k));
    ChainClosed(Rep(t.f, t.depth));
    ChainClosed(t.base + Init(t.ns));
    ChainClosed(Rep(t.g, t.k));
    BottomClosed(t);
    UnionClosed(a, b);
    UnionClosed(a + b, c);
    UnionClosed(a + b + c, t.Bottom());
  }

  /** It does not use `l`, is not the inner link, and is not below the bottom of the chain of `g`. */
  ghost predicate Avoids(t: Trap, p: Path) {
    t.l !in p && p != t.Inner() && (Rep(t.g, t.k) <= p ==> p == Rep(t.g, t.k))
  }

  lemma InnerNames(t: Trap)
    requires Set(t)
    ensures t.Inner() != [] && t.Inner()[0] != t.g && t.l !in t.Inner()
    ensures var last := t.Inner()[|t.Inner()| - 1]; last != t.f && last != t.g
  {
    var inner := t.Inner();
    assert inner[|inner| - 1] == t.ns[|t.ns| - 1] && t.ns[|t.ns| - 1] in t.ns;
    assert forall i :: 0 <= i < |inner| ==> inner[i] in t.base || inner[i] in t.ns;
  }

  lemma BottomNames(t: Trap, p: Path)
    requires Set(t) && Rep(t.g, t.k) <= p
    ensures |p| >= t.k && p[0] == t.g && p[t.k - 1] == t.g
  {
    assert p[0] == Rep(t.g, t.k)[0] && p[t.k - 1] == Rep(t.g, t.k)[t.k - 1];
  }

  lemma FirstChainAvoids(t: Trap, p: Path)
    requires Set(t) && p in Chain(Rep(t.f, t.depth))
    ensures Avoids(t, p)
  {
    InnerNames(t);
    assert forall i :: 0 <= i < |p| ==> p[i] == t.f;
    if Rep(t.g, t.k) <= p {
      BottomNames(t, p);
    }
  }

  lemma BaseChainAvoids(t: Trap, p: Path)
    requires Set(t) && p in Chain(t.base + Init(t.ns))
    ensures Avoids(t, p)
  {
    assert |p| < |t.Inner()|;
    forall i | 0 <= i < |p|
      ensures p[i] != t.g && p[i] != t.l
    {
      assert p[i] == (t.base + Init(t.ns))[i];
      assert p[i] in t.base || p[i] in t.ns;
    }
    if Rep(t.g, t.k) <= p {
      BottomNames(t, p);
    }
  }

  lemma BottomChainAvoids(t: Trap, p: Path)
    requires Set(t) && p in Chain(Rep(t.g, t.k))
    ensures Avoids(t, p)
  {
    InnerNames(t);
    assert forall i :: 0 <= i < |p| ==> p[i] == t.g;
  }

  lemma VisitedAvoids(t: Trap, p: Path)
    requires Set(t) && p in Visited(Rep(t.g, t.k - 1), t.rest)
    ensures Avoids(t, p)
  {
    InnerNames(t);
    VisitedInside(Rep(t.g, t.k - 1), t.rest, t.g, t.l, t.k);
    if Rep(t.g, t.k) <= p {
      BottomNames(t, p);
    }
  }

  /** What is used of the directories of a trap. */
  ghost predicate Holds(t: Trap, dirs: set<Path>)
    requires t.k >= 1
  {
    && PrefixClosed(dirs)
    && Rep(t.f, t.depth) in dirs && t.base + Init(t.ns) in dirs && Rep(t.g, t.k) in dirs
    && Visited(Rep(t.g, t.k - 1), t.rest) <= dirs
    && forall p :: p in dirs ==> Avoids(t, p)
  }

  /** A file system that holds the directories, the two links and nothing else. */
  ghost predicate Built(t: Trap, fs: Tree, dirs: set<Path>)
    requires t.k >= 1
  {
    && Holds(t, dirs)
    && (forall p :: p in dirs ==> IsDir(fs, p))
    && t.Inner() in fs && fs[t.Inner()] == Link(Text(Rep(t.g, t.k)))
    && t.Outer() in fs && fs[t.Outer()] == Link(t.text)
    && forall p :: p in fs ==> p in dirs || p == t.Inner() || p == t.Outer()
  }

  lemma Below(dirs: set<Path>, p: Path, i: nat)
    requires PrefixClosed(dirs) && p in dirs && i <= |p|
    ensures p[..i] in dirs
  {
    assert p[..i] in Chain(p);
  }

  lemma LinksApart(t: Trap)
    requires Set(t)
    ensures t.Inner() != t.Outer()
    ensures t.Outer()[0] != t.g && t.l in t.Outer()
  {
    InnerNames(t);
    assert t.Outer()[t.depth] == t.l;
  }

  ghost predicate AllAvoid(t: Trap, ps: set<Path>) {
    forall p :: p in ps ==> Avoids(t, p)
  }

  lemma UnionAvoids(t: Trap, a: set<Path>, b: set<Path>, c: set<Path>, d: set<Path>)
    requires AllAvoid(t, a) && AllAvoid(t, b) && AllAvoid(t, c) && AllAvoid(t, d)
    ensures AllAvoid(t, a + b + c + d)
  {
    hide Avoids;
  }

  lemma ChainsAvoid(t: Trap)
    requires Set(t)
    ensures AllAvoid(t, Chain(Rep(t.f, t.depth)))
    ensures AllAvoid(t, Chain(t.base + Init(t.ns)))
    ensures AllAvoid(t, Chain(Rep(t.g, t.k)))
    ensures AllAvoid(t, t.Bottom())
  {
    assert t.k >= 2;
    hide Avoids, Set, Rep, Init, Visited, Chain;
    forall p | p in Chain(Rep(t.f, t.depth)) ensures Avoids(t, p) { FirstChainAvoids(t, p); }
    forall p | p in Chain(t.base + Init(t.ns)) ensures Avoids(t, p) { BaseChainAvoids(t, p); }
    forall p | p in Chain(Rep(t.g, t.k)) ensures Avoids(t, p) { BottomChainAvoids(t, p); }
    forall p | p in t.Bottom() ensures Avoids(t, p) { VisitedAvoids(t, p); }
  }

  lemma DirsAvoid(t: Trap)
    requires Set(t)
    ensures AllAvoid(t, t.Dirs())
  {
    hide AllAvoid, Set, Rep, Init, Trap.Bottom, Chain;
    ChainsAvoid(t);
    UnionAvoids(t, Chain(Rep(t.f, t.depth)), Chain(t.base + Init(t.ns)), Chain(Rep(t.g, t.k)), t.Bottom());
  }

  lemma DirsHold(t: Trap)
    requires t.k >= 1
    ensures Rep(t.f, t.depth) in t.Dirs() && t.base + Init(t.ns) in t.Dirs() && Rep(t.g, t.k) in t.Dirs()
    ensures Visited(Rep(t.g, t.k - 1), t.rest) <= t.Dirs()
  {
    hide Chain, Rep, Init, Visited;
    assert Rep(t.f, t.depth) in Chain(Rep(t.f, t.depth));
    assert t.base + Init(t.ns) in Chain(t.base + Init(t.ns));
    assert Rep(t.g, t.k) in Chain(Rep(t.g, t.k));
  }

  lemma TrapHolds(t: Trap)
    requires Set(t)
    ensures Holds(t, t.Dirs())
  {
    assert t.k >= 2;
    hide Avoids, Set, PrefixClosed, Rep, Init, Visited, Trap.Dirs;
    DirsClosed(t);
    DirsHold(t);
    DirsAvoid(t);
  }

  /** The tree has the directories, the two links and nothing else. */
  lemma TreeHolds(t: Trap)
    requires t.Inner() != t.Outer() && t.Inner() !in t.Dirs() && t.Outer() !in t.Dirs()
    ensures var fs := t.Tree();
            && (forall p :: p in t.Dirs() ==> IsDir(fs, p))
            && t.Inner() in fs && fs[t.Inner()] == Link(Text(Rep(t.g, t.k)))
            && t.Outer() in fs && fs[t.Outer()] == Link(t.text)
            && forall p :: p in fs ==> p in t.Dirs() || p == t.Inner() || p == t.Outer()
  {
  }

  lemma TrapBuilt(t: Trap)
    requires Set(t)
    ensures Built(t, t.Tree(), t.Dirs())
  {
    TrapHolds(t);
    LinksApart(t);
    TreeHolds(t);
  }

  lemma BuiltWellFormed(t: Trap, fs: Tree, dirs: set<Path>)
    requires Set(t) && Built(t, fs, dirs)
    ensures WellFormed(fs)
  {
    Below(dirs, Rep(t.f, t.depth), 0);
    assert Parent(t.Inner()) == t.base + Init(t.ns);
    assert Parent(t.Outer()) == Rep(t.f, t.depth);
    forall p {:trigger Parent(p)} | p in fs
      ensures IsDir(fs, Parent(p))
    {
      if p in dirs && p != [] {
        Below(dirs, p, |p| - 1);
      }
    }
  }

  lemma ChainThere(fs: Tree, dirs: set<Path>, from: Path, names: seq<string>)
    requires PrefixClosed(dirs) && (forall p :: p in dirs ==> IsDir(fs, p)) && from + names in dirs
    ensures forall i :: 0 < i <= |names| ==> from + names[..i] in fs && !fs[from + names[..i]].Link?
  {
    forall i | 0 < i <= |names|
      ensures from + names[..i] in fs && !fs[from + names[..i]].Link?
    {
      Below(dirs, from + names, |from| + i);
      assert (from + names)[..|from| + i] == from + names[..i];
      assert IsDir(fs, from + names[..i]);
    }
  }

  /** Walking down one of the chains. */
  lemma WalkChain(fs: Tree, dirs: set<Path>, from: Path, names: seq<string>, more: seq<Component>, followed: nat)
    requires PrefixClosed(dirs) && (forall p :: p in dirs ==> IsDir(fs, p))
    requires from + names in dirs && followed <= LINK_BUDGET
    ensures Walk(fs, [], from, Normals(names) + more, followed) == Walk(fs, [], from + names, more, followed)
  {
    ChainThere(fs, dirs, from, names);
    WalkPlain(fs, from, names, more, followed);
  }

  // --------------------------------------------------- what the walk does

  /** The components of the text, read as the trap expects. */
  ghost predicate Reads(t: Trap) {
    Components(t.text) == t.head + Body(t)
  }

  function Target(t: Trap): string {
    Text(t.Outer())
  }

  /** What follows the head of the text. */
  function Body(t: Trap): seq<Component> {
    Normals(t.ns) + ([ParentDir] + t.rest)
  }

  /** The head of the text leads the walk from where the outer link stands to the base. */
  ghost predicate LeadsToBase(t: Trap, fs: Tree) {
    Walk(fs, [], Rep(t.f, t.depth), t.head + Body(t), 1) == Walk(fs, [], t.base, Body(t), 1)
  }

  lemma PlainNames(names: seq<string>, n: string)
    requires AllPlain(names) && IsPlain(n)
    ensures AllPlain(names + [n])
  {
  }

  lemma RepPlain(x: string, n: nat)
    requires IsPlain(x)
    ensures AllPlain(Rep(x, n))
  {
  }

  /** From the root to the outer link. */
  lemma WalkToOuter(t: Trap, fs: Tree, dirs: set<Path>)
    requires Set(t) && Built(t, fs, dirs)
    ensures Walk(fs, [], [], Components(Target(t)), 0) == Walk(fs, [], Rep(t.f, t.depth), Components(t.text), 1)
  {
    hide Components, Text, Avoids, Visited, Chain;
    var chain := Rep(t.f, t.depth);
    RepPlain(t.f, t.depth);
    PlainNames(chain, t.l);
    TextComponents(t.Outer());
    var names := Normals(chain) + [Normal(t.l)];
    assert Normals(t.Outer()) == names;
    assert ([RootDir] + names)[1..] == names;
    assert [] + chain == chain;
    WalkChain(fs, dirs, [], chain, [Normal(t.l)], 0);
    WalkLink(fs, chain, t.l, [], 0);
    assert [Normal(t.l)] + [] == [Normal(t.l)];
    assert Components(t.text) + [] == Components(t.text);
  }

  /** Down a chain and over the link at its end. */
  lemma WalkOver(fs: Tree, dirs: set<Path>, from: Path, init: seq<string>, last: string, more: seq<Component>,
                 followed: nat)
    requires PrefixClosed(dirs) && (forall p :: p in dirs ==> IsDir(fs, p)) && from + init in dirs
    requires from + init + [last] in fs && fs[from + init + [last]].Link? && followed < LINK_BUDGET
    ensures Walk(fs, [], from, Normals(init + [last]) + more, followed)
            == Walk(fs, [], from + init, Components(fs[from + init + [last]].text) + more, followed + 1)
  {
    var tail := [Normal(last)] + more;
    assert Normals(init + [last]) + more == Normals(init) + tail;
    WalkChain(fs, dirs, from, init, tail, followed);
    WalkLink(fs, from + init, last, more, followed);
  }

  /** From the base to the inner link. */
  lemma WalkToInner(fs: Tree, dirs: set<Path>, base: Path, ns: seq<string>, text: string, more: seq<Component>)
    requires PrefixClosed(dirs) && (forall p :: p in dirs ==> IsDir(fs, p)) && base + Init(ns) in dirs
    requires ns != [] && base + ns in fs && fs[base + ns] == Link(text)
    ensures Walk(fs, [], base, Normals(ns) + more, 1) == Walk(fs, [], base + Init(ns), Components(text) + more, 2)
  {
    var init, last := Init(ns), ns[|ns| - 1];
    assert ns == init + [last];
    assert base + init + [last] == base + ns;
    WalkOver(fs, dirs, base, init, last, more, 1);
  }

  /** From anywhere through an absolute text to a directory. */
  lemma WalkToBottom(fs: Tree, dirs: set<Path>, bottom: Path, cur: Path, more: seq<Component>)
    requires PrefixClosed(dirs) && (forall p :: p in dirs ==> IsDir(fs, p)) && bottom in dirs && AllPlain(bottom)
    ensures Walk(fs, [], cur, Components(Text(bottom)) + more, 2) == Walk(fs, [], bottom, more, 2)
  {
    TextComponents(bottom);
    WalkFromRoot(fs, cur, Normals(bottom), more);
    assert [] + bottom == bottom;
    WalkChain(fs, dirs, [], bottom, more, 2);
  }

  lemma WalkFromRoot(fs: Tree, cur: Path, names: seq<Component>, more: seq<Component>)
    ensures Walk(fs, [], cur, [RootDir] + names + more, 2) == Walk(fs, [], [], names + more, 2)
  {
    assert ([RootDir] + names + more)[1..] == names + more;
  }

  /** One up from a directory, and then along everything visited. */
  lemma WalkUp(fs: Tree, below: Path, stack: Path, cs: seq<Component>, followed: nat)
    requires followed <= LINK_BUDGET && below != [] && stack == below[..|below| - 1] && IsDir(fs, below)
    requires |stack| > |cs| && forall c :: c in cs ==> c.ParentDir? || c.Normal?
    requires forall p :: p in Visited(stack, cs) ==> IsDir(fs, p)
    ensures Walk(fs, [], below, [ParentDir] + cs, followed) == Ok(Settled(stack, cs))
  {
    assert [] + below == below;
    assert ([ParentDir] + cs)[1..] == cs;
    WalkVisited(fs, stack, cs, followed);
  }

  /** From the bottom one up, and then along the rest of the text. */
  lemma WalkFromBottom(fs: Tree, dirs: set<Path>, g: string, l: string, k: nat, rest: seq<Component>)
    returns (p: Path)
    requires k > |rest| + 1 && Tail(rest, g, l) && l != g
    requires (forall q :: q in dirs ==> IsDir(fs, q)) && Rep(g, k) in dirs && Visited(Rep(g, k - 1), rest) <= dirs
    ensures Walk(fs, [], Rep(g, k), [ParentDir] + rest, 2) == Ok(p)
    ensures Inside(p, g, k, 0)
  {
    hide Visited, Settled;
    var bottom, start := Rep(g, k), Rep(g, k - 1);
    p := Settled(start, rest);
    assert bottom[..k - 1] == start;
    VisitedInside(start, rest, g, l, k);
    WalkUp(fs, bottom, start, rest, 2);
  }

  /** The walk ends inside the chain of `g`, above its bottom. */
  lemma WalkEnds(t: Trap, fs: Tree, dirs: set<Path>) returns (p: Path)
    requires Set(t) && Reads(t) && Built(t, fs, dirs) && LeadsToBase(t, fs)
    ensures Walk(fs, [], [], Components(Target(t)), 0) == Ok(p)
    ensures Inside(p, t.g, t.k, 0)
  {
    hide Walk, Components, Text, Visited, Avoids, Inside, Tail;
    var more := [ParentDir] + t.rest;
    WalkToOuter(t, fs, dirs);
    WalkToInner(fs, dirs, t.base, t.ns, Text(Rep(t.g, t.k)), more);
    RepPlain(t.g, t.k);
    WalkToBottom(fs, dirs, Rep(t.g, t.k), t.base + Init(t.ns), more);
    p := WalkFromBottom(fs, dirs, t.g, t.l, t.k, t.rest);
  }

  // ----------------------------------------------- what the resolver does

  /** Collapsing brings in no new names. */
  lemma {:induction false} CollapseNames(stack: seq<string>, cs: seq<Component>)
    ensures Collapse(stack, cs).Some? ==>
              forall n :: n in Collapse(stack, cs).value ==> n in stack || Normal(n) in cs
    decreases cs
  {
    if cs != [] {
      match cs[0]
      case RootDir => CollapseNames(stack, cs[1..]);
      case CurDir => CollapseNames(stack, cs[1..]);
      case Normal(name) => CollapseNames(stack + [name], cs[1..]);
      case ParentDir =>
        if stack != [] {
          CollapseNames(stack[..|stack| - 1], cs[1..]);
        }
    }
  }

  lemma {:induction false} FirstLink(fs: Tree, names: seq<string>, k: nat)
    requires k <= |names|
    ensures var s := Scan(fs, [], names, k);
            s.Redirect? ==> names[..s.at + 1] in fs && fs[names[..s.at + 1]] == Link(s.text)
    decreases |names| - k
  {
    if k < |names| {
      FirstLink(fs, names, k + 1);
      assert [] + names[..k + 1] == names[..k + 1];
    }
  }

  /** The chain of `g` is clear of links. */
  lemma BottomClear(t: Trap, fs: Tree, dirs: set<Path>)
    requires Set(t) && Built(t, fs, dirs)
    ensures Scan(fs, [], Rep(t.g, t.k), 0) == Clear
  {
    var bottom := Rep(t.g, t.k);
    assert [] + bottom == bottom;
    ChainThere(fs, dirs, [], bottom);
    ScanClear(fs, [], bottom, 0);
  }

  lemma NothingBelow(t: Trap, fs: Tree, dirs: set<Path>, n: string)
    requires Set(t) && Built(t, fs, dirs)
    ensures Rep(t.g, t.k) + [n] !in fs
  {
    var bottom := Rep(t.g, t.k);
    var p := bottom + [n];
    assert p[0] == t.g && bottom <= p;
    InnerNames(t);
    LinksApart(t);
    assert Avoids(t, p) ==> p == bottom;
  }

  lemma RestartBelow(fs: Tree, bottom: Path, tail: seq<string>, followed: nat)
    requires Scan(fs, [], bottom, 0) == Clear && followed <= LINK_BUDGET
    requires tail != [] ==> bottom + [tail[0]] !in fs
    ensures Restart(fs, [], bottom + tail, followed) == if tail == [] then Ok(bottom) else Err(NotFound)
  {
    if tail == [] {
      assert bottom + tail == bottom && [] + bottom == bottom;
    } else {
      assert [] + bottom + [tail[0]] == bottom + [tail[0]];
      ScanNext(fs, [], bottom, tail[0], tail[1..]);
      assert bottom + [tail[0]] + tail[1..] == bottom + tail;
    }
  }

  /** Names free of `g` and `l` never resolve to where the walk ends. */
  lemma RestartElsewhere(t: Trap, fs: Tree, dirs: set<Path>, next: seq<string>, p: Path)
    requires Set(t) && Built(t, fs, dirs)
    requires t.g !in next && t.l !in next && Inside(p, t.g, t.k, 0)
    ensures Restart(fs, [], next, 1) != Ok(p)
  {
    hide Components, Collapse, Redirected, Holds, Text;
    var bottom := Rep(t.g, t.k);
    FirstLink(fs, next, 0);
    match Scan(fs, [], next, 0)
    case Missing =>
    case Clear =>
      assert [] + next == next;
      assert p[0] == t.g && p[0] in p;
    case Redirect(at, text) =>
      var q := next[..at + 1];
      LinksApart(t);
      assert q == t.Inner() && text == Text(bottom);
      RepPlain(t.g, t.k);
      BottomRedirect(next, at, bottom);
      var tail := next[at + 1..];
      BottomClear(t, fs, dirs);
      if tail != [] {
        NothingBelow(t, fs, dirs, tail[0]);
      }
      RestartBelow(fs, bottom, tail, 2);
      assert p != bottom by {
        assert bottom[t.k - 1] == t.g;
      }
  }

  lemma RootedCollapse(names: seq<string>)
    ensures Collapse([], [RootDir] + Normals(names)) == Some(names)
  {
    assert ([RootDir] + Normals(names))[1..] == Normals(names);
    CollapseNormals([], names);
    assert [] + names == names;
  }

  lemma BottomRedirect(names: seq<string>, at: nat, bottom: seq<string>)
    requires at < |names| && AllPlain(bottom)
    ensures Collapse([], Redirected(names, at, Text(bottom))) == Some(bottom + names[at + 1..])
  {
    hide Components, Text;
    TextComponents(bottom);
    var tail := names[at + 1..];
    var all := [RootDir] + Normals(bottom) + Normals(tail);
    assert Redirected(names, at, Text(bottom)) == all;
    assert all == [RootDir] + Normals(bottom + tail);
    RootedCollapse(bottom + tail);
  }

  lemma OuterScan(t: Trap, fs: Tree, dirs: set<Path>)
    requires Set(t) && Built(t, fs, dirs)
    ensures Scan(fs, [], t.Outer(), 0) == Redirect(t.depth, t.text)
  {
    var chain := Rep(t.f, t.depth);
    assert [] + chain == chain;
    ChainThere(fs, dirs, [], chain);
    ScanClear(fs, [], chain, 0);
    ScanNext(fs, [], chain, t.l, []);
    assert chain + [t.l] + [] == t.Outer() && [] + chain + [t.l] == t.Outer();
  }

  /** The first redirection drops the outer link's name and brings in only names of the text. */
  lemma OuterNext(t: Trap) returns (next: Option<seq<string>>)
    requires Set(t)
    requires forall c :: c in Components(t.text) && c.Normal? ==> Foreign(t, c.name)
    ensures Collapse([], Redirected(t.Outer(), t.depth, t.text)) == next
    ensures next.Some? ==> t.g !in next.value && t.l !in next.value
  {
    var chain := Rep(t.f, t.depth);
    var start := if IsAbsolute(t.text) then [] else chain;
    var cs := Components(t.text) + Normals([]);
    assert cs == Components(t.text);
    assert t.Outer()[..t.depth] == chain && t.Outer()[t.depth + 1..] == [];
    RedirectedCollapse(t.Outer(), t.depth, t.text, chain, []);
    CollapseNames(start, cs);
    next := Collapse(start, cs);
  }

  /** So the resolver does not find what the walk finds. */
  lemma ResolveElsewhere(t: Trap, fs: Tree, dirs: set<Path>, p: Path)
    requires Set(t) && Built(t, fs, dirs) && Inside(p, t.g, t.k, 0)
    requires forall c :: c in Components(t.text) && c.Normal? ==> Foreign(t, c.name)
    ensures Resolve(fs, [], Target(t)) != Ok(p)
  {
    RepPlain(t.f, t.depth);
    PlainNames(Rep(t.f, t.depth), t.l);
    ResolveText(fs, [], t.Outer());
    OuterScan(t, fs, dirs);
    var next := OuterNext(t);
    if next.Some? {
      RestartElsewhere(t, fs, dirs, next.value, p);
    }
  }

  // -------------------------------------------------------- setting it up

  /** The first `..` behind a name, in a text that begins with names. */
  lemma {:induction false} FirstClimb(cs: seq<Component>, j: nat) returns (ns: seq<string>, rest: seq<Component>)
    requires 0 < j < |cs| && cs[j] == ParentDir && cs[0].Normal?
    requires forall i :: 0 < i < |cs| ==> cs[i].ParentDir? || cs[i].Normal?
    ensures ns != [] && cs == Normals(ns) + ([ParentDir] + rest)
    decreases cs
  {
    if cs[1].ParentDir? {
      ns, rest := [cs[0].name], cs[2..];
    } else {
      var more;
      more, rest := FirstClimb(cs[1..], j - 1);
      ns := [cs[0].name] + more;
      NormalsCons(cs[0].name, more, [ParentDir] + rest);
      assert cs == [cs[0]] + cs[1..];
    }
  }

  lemma NormalsCons(n: string, names: seq<string>, more: seq<Component>)
    ensures Normals([n] + names) + more == [Normal(n)] + (Normals(names) + more)
  {
  }

  /** An untidy text: a head without names, names, a `..`, and the rest. */
  lemma {:induction false} Decompose(cs: seq<Component>, i: nat, j: nat)
    returns (head: seq<Component>, ns: seq<string>, rest: seq<Component>)
    requires i < j < |cs| && cs[i].Normal? && cs[j] == ParentDir
    requires forall i :: 0 < i < |cs| ==> cs[i].ParentDir? || cs[i].Normal?
    ensures ns != [] && cs == head + (Normals(ns) + ([ParentDir] + rest))
    ensures forall c :: c in head ==> !c.Normal?
    decreases cs
  {
    if cs[0].Normal? {
      head := [];
      ns, rest := FirstClimb(cs, j);
      assert [] + cs == cs;
    } else {
      var more;
      more, ns, rest := Decompose(cs[1..], i - 1, j - 1);
      head := [cs[0]] + more;
      assert cs == [cs[0]] + cs[1..];
    }
  }

  function Longest(cs: seq<Component>): nat {
    if cs == [] then 0
    else
      var n := if cs[0].Normal? then |cs[0].name| else 0;
      if n > Longest(cs[1..]) then n else Longest(cs[1..])
  }

  lemma {:induction false} LongestMeaning(cs: seq<Component>)
    ensures forall c :: c in cs && c.Normal? ==> |c.name| <= Longest(cs)
    decreases cs
  {
    if cs != [] {
      LongestMeaning(cs[1..]);
    }
  }

  /** A plain name of a given length. */
  function Exes(n: nat): (s: string)
    ensures |s| == n && (n > 0 ==> IsPlain(s))
  {
    var s := seq(n, _ => 'x');
    assert forall c :: c in s ==> c == 'x';
    assert n > 0 ==> s[0] == 'x';
    s
  }

  function Ups(head: seq<Component>): nat {
    if head == [] then 0 else (if head[0].ParentDir? then 1 else 0) + Ups(head[1..])
  }

  lemma {:induction false} UpsBound(head: seq<Component>)
    ensures Ups(head) <= |head|
  {
    if head != [] {
      UpsBound(head[1..]);
    }
  }

  /** Climbing out of a chain. */
  lemma {:induction false} Climb(fs: Tree, f: string, depth: nat, head: seq<Component>, more: seq<Component>)
    requires |head| <= depth && forall c :: c in head ==> c.ParentDir? || c.CurDir?
    requires forall i: nat :: i <= depth ==> IsDir(fs, Rep(f, i))
    ensures Ups(head) <= depth
    ensures Walk(fs, [], Rep(f, depth), head + more, 1) == Walk(fs, [], Rep(f, depth - Ups(head)), more, 1)
    decreases |head|
  {
    UpsBound(head);
    if head == [] {
      assert head + more == more;
    } else {
      assert head[0] in head;
      assert (head + more)[1..] == head[1..] + more;
      var chain := Rep(f, depth);
      assert [] + chain == chain;
      if head[0].ParentDir? {
        assert chain[..depth - 1] == Rep(f, depth - 1);
        Climb(fs, f, depth - 1, head[1..], more);
      } else {
        Climb(fs, f, depth, head[1..], more);
      }
    }
  }

  /** The trap for a text whose pieces are known. */
  function TrapFor(text: string, head: seq<Component>, ns: seq<string>, rest: seq<Component>): Trap {
    var m := Longest(Components(text));
    var depth := if IsAbsolute(text) then 0 else |head|;
    var base := if IsAbsolute(text) || Ups(head) > depth then [] else Rep(Exes(m + 1), depth - Ups(head));
    Trap(text, head, base, ns, rest, Exes(m + 1), Exes(m + 2), Exes(m + 3), depth, |rest| + 2)
  }

  lemma TrapIsSet(text: string, head: seq<Component>, ns: seq<string>, rest: seq<Component>)
    requires ns != [] && Components(text) == head + (Normals(ns) + ([ParentDir] + rest))
    ensures var t := TrapFor(text, head, ns, rest);
            && Set(t) && Reads(t)
            && forall c :: c in Components(text) && c.Normal? ==> Foreign(t, c.name)
  {
    hide Components, Longest, Harmless;
    var cs, t := Components(text), TrapFor(text, head, ns, rest);
    ComponentsShape(text);
    LongestMeaning(cs);
    assert |t.f| != |t.g| && |t.f| != |t.l| && |t.g| != |t.l|;
    forall c | c in cs && c.Normal?
      ensures Foreign(t, c.name) && IsPlain(c.name)
    {
    }
    forall n | n in ns
      ensures Foreign(t, n) && IsPlain(n)
    {
      var i :| 0 <= i < |ns| && ns[i] == n;
      assert cs[|head| + i] == Normal(n);
    }
    forall c | c in rest
      ensures c.ParentDir? || (c.Normal? && c.name != t.g && c.name != t.l)
    {
      var i :| 0 <= i < |rest| && rest[i] == c;
      assert cs[|head| + |ns| + 1 + i] == c;
    }
  }

  /** The head of an absolute text that does not climb at once is just the root. */
  lemma AbsoluteHead(cs: seq<Component>, head: seq<Component>, more: seq<Component>)
    requires cs == head + more && more != [] && more[0].Normal? && cs[0].RootDir? && !Harmless(cs)
    requires forall i :: 0 < i < |cs| ==> cs[i].ParentDir? || cs[i].Normal?
    requires forall c :: c in head ==> !c.Normal?
    ensures head == [RootDir]
  {
    assert forall i :: 0 <= i < |head| ==> cs[i] in head;
    assert head != [] && head[0] == cs[0];
  }

  lemma RelativeHead(cs: seq<Component>, head: seq<Component>, more: seq<Component>)
    requires cs == head + more && (cs != [] ==> !cs[0].RootDir?)
    requires forall i :: 0 < i < |cs| ==> cs[i].ParentDir? || cs[i].Normal?
    requires forall c :: c in head ==> !c.Normal?
    ensures forall c :: c in head ==> c.ParentDir? || c.CurDir?
  {
    forall c | c in head
      ensures c.ParentDir? || c.CurDir?
    {
      var i :| 0 <= i < |head| && head[i] == c;
      assert cs[i] == c;
    }
  }

  lemma ChainDirs(t: Trap, fs: Tree, dirs: set<Path>)
    requires t.k >= 1 && Built(t, fs, dirs)
    ensures forall i: nat :: i <= t.depth ==> IsDir(fs, Rep(t.f, i))
  {
    forall i: nat | i <= t.depth
      ensures IsDir(fs, Rep(t.f, i))
    {
      Below(dirs, Rep(t.f, t.depth), i);
      assert Rep(t.f, t.depth)[..i] == Rep(t.f, i);
    }
  }

  /** Its head leads to its base. */
  lemma TrapLeads(text: string, head: seq<Component>, ns: seq<string>, rest: seq<Component>, fs: Tree, dirs: set<Path>)
    requires ns != [] && Components(text) == head + (Normals(ns) + ([ParentDir] + rest))
    requires !Harmless(Components(text)) && forall c :: c in head ==> !c.Normal?
    requires Built(TrapFor(text, head, ns, rest), fs, dirs)
    ensures LeadsToBase(TrapFor(text, head, ns, rest), fs)
  {
    var t := TrapFor(text, head, ns, rest);
    var body := Body(t);
    assert body[0] == Normal(ns[0]);
    ComponentsShape(text);
    if IsAbsolute(text) {
      AbsoluteHead(Components(text), head, body);
      assert ([RootDir] + body)[1..] == body;
    } else {
      RelativeHead(Components(text), head, body);
      ChainDirs(t, fs, dirs);
      Climb(fs, t.f, t.depth, head, body);
    }
  }

  lemma TidyNames(names: seq<string>)
    requires AllPlain(names)
    ensures IsAbsolute(Text(names)) && Harmless(Components(Text(names)))
  {
    TextComponents(names);
  }

  lemma TrapTidy(t: Trap, fs: Tree, dirs: set<Path>)
    requires Set(t) && Built(t, fs, dirs)
    ensures OnlyUntidy(fs, t.text) && IsAbsolute(Target(t)) && Harmless(Components(Target(t)))
  {
    RepPlain(t.f, t.depth);
    PlainNames(Rep(t.f, t.depth), t.l);
    TidyNames(t.Outer());
    RepPlain(t.g, t.k);
    TidyNames(Rep(t.g, t.k));
  }

  lemma Disagrees(t: Trap, fs: Tree, dirs: set<Path>)
    requires Set(t) && Reads(t) && Built(t, fs, dirs) && LeadsToBase(t, fs)
    requires forall c :: c in Components(t.text) && c.Normal? ==> Foreign(t, c.name)
    ensures !SameAnswer(fs, [], Target(t))
  {
    var p := WalkEnds(t, fs, dirs);
    ResolveElsewhere(t, fs, dirs, p);
  }

  /** A file system on which an untidy text is read differently. */
  lemma Disagreement(text: string) returns (fs: Tree, target: string)
    requires !Harmless(Components(text))
    ensures WellFormed(fs) && IsDir(fs, []) && OnlyUntidy(fs, text)
    ensures IsAbsolute(target) && Harmless(Components(target)) && !SameAnswer(fs, [], target)
  {
    ComponentsShape(text);
    var i, j :| 0 <= i < j < |Components(text)| && Components(text)[i].Normal? && Components(text)[j] == ParentDir;
    var head, ns, rest := Decompose(Components(text), i, j);
    var t := TrapFor(text, head, ns, rest);
    TrapIsSet(text, head, ns, rest);
    TrapBuilt(t);
    fs, target := t.Tree(), Target(t);
    BuiltWellFormed(t, fs, t.Dirs());
    TrapLeads(text, head, ns, rest, fs, t.Dirs());
    TrapTidy(t, fs, t.Dirs());
    Disagrees(t, fs, t.Dirs());
  }

  /**
   Exactly the harmless link texts are read alike: for a text with no `..`
   behind a name, or one that climbs above the root at once, the resolver and
   the walk agree on every file system; for any other text they disagree on some.
   */
  lemma AgreementIffHarmless(text: string)
    ensures AlwaysAgrees(text) <==> Harmless(Components(text))
  {
    if Harmless(Components(text)) {
      forall fs, root, target |
        WellFormed(fs) && IsDir(fs, root) && OnlyUntidy(fs, text) && IsAbsolute(target) && Harmless(Components(target))
        ensures SameAnswer(fs, root, target)
      {
        ResolveIsWalk(fs, root, target);
      }
    } else {
      var fs, target := Disagreement(text);
      assert !SameAnswer(fs, [], target);
    }
  }
}
