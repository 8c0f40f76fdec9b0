/**
 Resolution of a path inside a prepared root file system, as sandrun does it:
 scan from the root, and after every symbolic link collapse the text and start
 again, following at most forty links.
 */
module Resolver {
  import opened Wrappers
  import opened Paths

  /** A host path, as the names below `/`. */
  type Path = seq<string>

  datatype Node = Dir | File | Link(text: string)

  /** What `lstat` would answer; no other process changes it meanwhile. */
  type Tree = map<Path, Node>

  datatype Fault = NotFound | NotADirectory | TooManyLinks | Escapes | UnsupportedSource

  type Outcome = Result<Path, Fault>

  const LINK_BUDGET: nat := 40

  function Parent(p: Path): Path {
    if p == [] then [] else p[..|p| - 1]
  }

  /** Every node but `/` sits in a directory. */
  ghost predicate WellFormed(fs: Tree) {
    && IsDir(fs, [])
    && forall p {:trigger Parent(p)} :: p in fs ==> IsDir(fs, Parent(p))
  }

  predicate IsDir(fs: Tree, p: Path) {
    p in fs && fs[p] == Dir
  }

  // -------------------------------------------------------- specification

  /** `normalize_inner_path` on components: `..` pops, and may not pop the root. */
  function Collapse(stack: seq<string>, cs: seq<Component>): Option<seq<string>>
    decreases cs
  {
    if cs == [] then Some(stack)
    else match cs[0]
      case RootDir => Collapse(stack, cs[1..])
      case CurDir => Collapse(stack, cs[1..])
      case Normal(name) => Collapse(stack + [name], cs[1..])
      case ParentDir => if stack == [] then None else Collapse(stack[..|stack| - 1], cs[1..])
  }

  datatype Stop = Clear | Missing | Redirect(at: nat, text: string)

  /** The first prefix of `names` below `root` that is missing or is a link. */
  function Scan(fs: Tree, root: Path, names: seq<string>, k: nat): (s: Stop)
    requires k <= |names|
    ensures s.Redirect? ==> k <= s.at < |names|
    decreases |names| - k
  {
    if k == |names| then Clear
    else
      var p := root + names[..k + 1];
      if p !in fs then Missing
      else if fs[p].Link? then Redirect(k, fs[p].text)
      else Scan(fs, root, names, k + 1)
  }

  /** The components of the path a link at index `at` of `names` leads to. */
  function Redirected(names: seq<string>, at: nat, text: string): seq<Component>
    requires at < |names|
  {
    (if IsAbsolute(text) then [] else [RootDir] + Normals(names[..at]))
    + Components(text) + Normals(names[at + 1..])
  }

  /** Restart from the root after each link, with `followed` links behind. */
  function Restart(fs: Tree, root: Path, names: seq<string>, followed: nat): Outcome
    requires followed <= LINK_BUDGET
    decreases LINK_BUDGET - followed
  {
    match Scan(fs, root, names, 0)
    case Clear => Ok(root + names)
    case Missing => Err(NotFound)
    case Redirect(at, text) =>
      if followed == LINK_BUDGET then Err(TooManyLinks)
      else match Collapse([], Redirected(names, at, text))
        case None => Err(Escapes)
        case Some(next) => Restart(fs, root, next, followed + 1)
  }

  function Resolve(fs: Tree, root: Path, target: string): Outcome {
    if !IsAbsolute(target) then Err(Escapes)
    else match Collapse([], Components(target))
      case None => Err(Escapes)
      case Some(names) => Restart(fs, root, names, 0)
  }

  // ------------------------------------------------------- the algorithms

  /** `normalize_inner_path` after its test for an absolute path. */
  method NormalizeInnerPath(cs: seq<Component>) returns (names: Option<seq<string>>)
    ensures names == Collapse([], cs)
  {
    var components: seq<string> := [];
    var i := 0;
    while i < |cs|
      invariant 0 <= i <= |cs|
      invariant Collapse([], cs) == Collapse(components, cs[i..])
    {
      assert cs[i..][1..] == cs[i + 1..];
      match cs[i] {
        case RootDir =>
        case CurDir =>
        case Normal(name) => components := components + [name];
        case ParentDir =>
          if components == [] {
            return None;
          }
          components := components[..|components| - 1];
      }
      i := i + 1;
    }
    return Some(components);
  }

  /**
   `resolve_target`. Besides the specified answer it reports how many times it
   scanned from the root, which a loop of links cannot drive above 41.
   */
  method ResolveTarget(fs: Tree, root: Path, target: string) returns (r: Outcome, passes: nat)
    ensures r == Resolve(fs, root, target)
    ensures passes <= LINK_BUDGET + 1
  {
    hide Components, Collapse, Normals;
    passes := 0;
    if !IsAbsolute(target) {
      return Err(Escapes), passes;
    }
    var start := NormalizeInnerPath(Components(target));
    if start.None? {
      return Err(Escapes), passes;
    }
    var logical := start.value;
    var followed: nat := 0;
    while true
      invariant followed <= LINK_BUDGET
      invariant passes == followed
      invariant Resolve(fs, root, target) == Restart(fs, root, logical, followed)
      decreases LINK_BUDGET - followed
    {
      passes := passes + 1;
      var physical := root;
      var innerParent: seq<string> := [];
      var redirected: Option<seq<Component>> := None;
      var index := 0;
      while index < |logical|
        invariant 0 <= index <= |logical|
        invariant innerParent == logical[..index]
        invariant physical == root + innerParent
        invariant redirected.None?
        invariant followed <= LINK_BUDGET
        invariant Scan(fs, root, logical, 0) == Scan(fs, root, logical, index)
      {
        var component := logical[index];
        assert logical[..index + 1] == innerParent + [component];
        physical := physical + [component];
        assert physical == root + logical[..index + 1];
        if physical !in fs {
          return Err(NotFound), passes;
        }
        if fs[physical].Link? {
          if followed == LINK_BUDGET {
            return Err(TooManyLinks), passes;
          }
          var link := fs[physical].text;
          var next := if IsAbsolute(link) then Components(link)
                      else [RootDir] + Normals(innerParent) + Components(link);
          redirected := Some(next + Normals(logical[index + 1..]));
          assert redirected.value == Redirected(logical, index, link);
          break;
        }
        innerParent := innerParent + [component];
        index := index + 1;
      }
      if redirected.None? {
        assert physical == root + logical;
        return Ok(physical), passes;
      }
      followed := followed + 1;
      var collapsed := NormalizeInnerPath(redirected.value);
      if collapsed.None? {
        return Err(Escapes), passes;
      }
      logical := collapsed.value;
    }
  }

  // ----------------------------------------------------------- scan lemmas

  lemma {:induction false} ScanClear(fs: Tree, root: Path, names: seq<string>, k: nat)
    requires k <= |names|
    ensures Scan(fs, root, names, k) == Clear <==>
            forall i :: k < i <= |names| ==> root + names[..i] in fs && !fs[root + names[..i]].Link?
    decreases |names| - k
  {
    if k < |names| {
      ScanClear(fs, root, names, k + 1);
      var p := root + names[..k + 1];
      if p in fs && !fs[p].Link? {
        forall i | k < i <= |names| && Scan(fs, root, names, k) == Clear
          ensures root + names[..i] in fs && !fs[root + names[..i]].Link?
        {
          if i == k + 1 {
            assert names[..i] == names[..k + 1];
          }
        }
      }
    }
  }

  /** Appending names does not change what happens before them. */
  lemma {:induction false} ScanPrefix(fs: Tree, root: Path, a: seq<string>, b: seq<string>, k: nat)
    requires k <= |a|
    ensures Scan(fs, root, a, k) == Clear ==> Scan(fs, root, a + b, k) == Scan(fs, root, a + b, |a|)
    ensures Scan(fs, root, a, k) != Clear ==> Scan(fs, root, a + b, k) == Scan(fs, root, a, k)
    decreases |a| - k
  {
    if k < |a| {
      assert (a + b)[..k + 1] == a[..k + 1];
      ScanPrefix(fs, root, a, b, k + 1);
    }
  }

  /** What the scan does with the one name after a clear prefix. */
  lemma ScanNext(fs: Tree, root: Path, a: seq<string>, n: string, rest: seq<string>)
    requires Scan(fs, root, a, 0) == Clear
    ensures var p := root + a + [n];
            && (p !in fs ==> Scan(fs, root, a + [n] + rest, 0) == Missing)
            && (p in fs && fs[p].Link? ==> Scan(fs, root, a + [n] + rest, 0) == Redirect(|a|, fs[p].text))
            && (p in fs && !fs[p].Link? ==> Scan(fs, root, a + [n], 0) == Clear)
  {
    ScanPrefix(fs, root, a, [n] + rest, 0);
    ScanPrefix(fs, root, a, [n], 0);
    var all := a + [n] + rest;
    assert a + ([n] + rest) == all;
    assert all[..|a| + 1] == a + [n] && (a + [n])[..|a| + 1] == a + [n];
    assert root + (a + [n]) == root + a + [n];
  }

  // -------------------------------------------------------- main theorems

  /**
   Confinement: whatever the links say, a successful resolution is the root
   followed by names whose every prefix exists and is not a link, and
   resolving that path again gives it back in a single pass.
   */
  lemma {:induction false} RestartConfined(fs: Tree, root: Path, names: seq<string>, followed: nat)
    requires followed <= LINK_BUDGET
    ensures var r := Restart(fs, root, names, followed);
            r.Ok? ==>
              && root <= r.value
              && Scan(fs, root, r.value[|root|..], 0) == Clear
              && forall f: nat :: f <= LINK_BUDGET ==> Restart(fs, root, r.value[|root|..], f) == r
    decreases LINK_BUDGET - followed
  {
    match Scan(fs, root, names, 0)
    case Clear =>
      assert (root + names)[|root|..] == names;
    case Missing =>
    case Redirect(at, text) =>
      if followed < LINK_BUDGET {
        var next := Collapse([], Redirected(names, at, text));
        if next.Some? {
          RestartConfined(fs, root, next.value, followed + 1);
        }
      }
  }

  lemma {:induction false} CollapsePlain(stack: seq<string>, cs: seq<Component>)
    requires AllPlain(stack)
    requires forall c :: c in cs && c.Normal? ==> IsPlain(c.name)
    ensures Collapse(stack, cs).Some? ==> AllPlain(Collapse(stack, cs).value)
    decreases cs
  {
    if cs != [] {
      match cs[0]
      case RootDir => CollapsePlain(stack, cs[1..]);
      case CurDir => CollapsePlain(stack, cs[1..]);
      case Normal(name) =>
        assert cs[0] in cs;
        CollapsePlain(stack + [name], cs[1..]);
      case ParentDir =>
        if stack != [] {
          CollapsePlain(stack[..|stack| - 1], cs[1..]);
        }
    }
  }

  lemma {:induction false} CollapseNormals(stack: seq<string>, names: seq<string>)
    ensures Collapse(stack, Normals(names)) == Some(stack + names)
    decreases names
  {
    if names == [] {
      assert stack + names == stack;
    } else {
      assert Normals(names)[1..] == Normals(names[1..]);
      CollapseNormals(stack + [names[0]], names[1..]);
      assert stack + [names[0]] + names[1..] == stack + names;
    }
  }

  lemma {:induction false} CollapseConcat(stack: seq<string>, a: seq<Component>, b: seq<Component>)
    ensures Collapse(stack, a + b) ==
            match Collapse(stack, a) case None => None case Some(mid) => Collapse(mid, b)
    decreases a
  {
    if a == [] {
      assert a + b == b;
    } else {
      assert (a + b)[1..] == a[1..] + b;
      match a[0]
      case RootDir => CollapseConcat(stack, a[1..], b);
      case CurDir => CollapseConcat(stack, a[1..], b);
      case Normal(name) => CollapseConcat(stack + [name], a[1..], b);
      case ParentDir =>
        if stack != [] {
          CollapseConcat(stack[..|stack| - 1], a[1..], b);
        }
    }
  }

  lemma RedirectedPlain(names: seq<string>, at: nat, text: string)
    requires AllPlain(names) && at < |names|
    ensures forall c :: c in Redirected(names, at, text) && c.Normal? ==> IsPlain(c.name)
  {
    ComponentsShape(text);
    forall c | c in Normals(names[..at]) || c in Normals(names[at + 1..])
      ensures IsPlain(c.name)
    {
    }
  }

  lemma {:induction false} RestartPlain(fs: Tree, root: Path, names: seq<string>, followed: nat)
    requires followed <= LINK_BUDGET && AllPlain(names)
    ensures var r := Restart(fs, root, names, followed);
            r.Ok? ==> root <= r.value && AllPlain(r.value[|root|..])
    decreases LINK_BUDGET - followed
  {
    match Scan(fs, root, names, 0)
    case Clear =>
      assert (root + names)[|root|..] == names;
    case Missing =>
    case Redirect(at, text) =>
      if followed < LINK_BUDGET {
        RedirectedPlain(names, at, text);
        CollapsePlain([], Redirected(names, at, text));
        var next := Collapse([], Redirected(names, at, text));
        if next.Some? {
          RestartPlain(fs, root, next.value, followed + 1);
        }
      }
  }

  /** The same for `resolve_target` itself, in terms of path texts. */
  lemma ResolveConfined(fs: Tree, root: Path, target: string)
    requires Resolve(fs, root, target).Ok?
    ensures var p := Resolve(fs, root, target).value;
            && root <= p
            && AllPlain(p[|root|..])
            && (forall i :: |root| < i <= |p| ==> p[..i] in fs && !fs[p[..i]].Link?)
            && Resolve(fs, root, Text(p[|root|..])) == Ok(p)
  {
    var start := Collapse([], Components(target)).value;
    ComponentsShape(target);
    CollapsePlain([], Components(target));
    RestartConfined(fs, root, start, 0);
    RestartPlain(fs, root, start, 0);
    var p := Resolve(fs, root, target).value;
    var inner := p[|root|..];
    ScanClear(fs, root, inner, 0);
    forall i | |root| < i <= |p|
      ensures p[..i] in fs && !fs[p[..i]].Link?
    {
      assert p[..i] == root + inner[..i - |root|];
    }
    ResolveText(fs, root, inner);
  }

  /** Resolving a canonical text starts the scan with exactly its names. */
  lemma ResolveText(fs: Tree, root: Path, names: seq<string>)
    requires AllPlain(names)
    ensures Resolve(fs, root, Text(names)) == Restart(fs, root, names, 0)
  {
    TextComponents(names);
    assert ([RootDir] + Normals(names))[1..] == Normals(names);
    CollapseNormals([], names);
    assert [] + names == names;
  }

  // ----------------------------------------------- growing file systems

  /** `fs` with more nodes; what was there before is unchanged. */
  ghost predicate Extends(fs: Tree, bigger: Tree) {
    forall p :: p in fs ==> p in bigger && bigger[p] == fs[p]
  }

  lemma {:induction false} ScanMonotone(fs: Tree, bigger: Tree, root: Path, names: seq<string>, k: nat)
    requires Extends(fs, bigger) && k <= |names|
    requires Scan(fs, root, names, k) != Missing
    ensures Scan(bigger, root, names, k) == Scan(fs, root, names, k)
    decreases |names| - k
  {
    if k < |names| {
      var p := root + names[..k + 1];
      assert p in bigger && bigger[p] == fs[p];
      if !fs[p].Link? {
        ScanMonotone(fs, bigger, root, names, k + 1);
      }
    }
  }

  /** New nodes never change a resolution that already succeeded. */
  lemma {:induction false} RestartMonotone(fs: Tree, bigger: Tree, root: Path, names: seq<string>, followed: nat)
    requires Extends(fs, bigger) && followed <= LINK_BUDGET
    requires Restart(fs, root, names, followed).Ok?
    ensures Restart(bigger, root, names, followed) == Restart(fs, root, names, followed)
    decreases LINK_BUDGET - followed
  {
    ScanMonotone(fs, bigger, root, names, 0);
    match Scan(fs, root, names, 0)
    case Clear =>
    case Redirect(at, text) =>
      var next := Collapse([], Redirected(names, at, text)).value;
      RestartMonotone(fs, bigger, root, next, followed + 1);
  }

  lemma ResolveMonotone(fs: Tree, bigger: Tree, root: Path, target: string)
    requires Extends(fs, bigger) && Resolve(fs, root, target).Ok?
    ensures Resolve(bigger, root, target) == Resolve(fs, root, target)
  {
    RestartMonotone(fs, bigger, root, Collapse([], Components(target)).value, 0);
  }

  // -------------------------------------------------- one name at a time

  lemma RedirectedSnoc(names: seq<string>, n: string, at: nat, text: string)
    requires at < |names|
    ensures Redirected(names + [n], at, text) == Redirected(names, at, text) + Normals([n])
  {
    var more := names + [n];
    assert more[..at] == names[..at];
    assert more[at + 1..] == names[at + 1..] + [n];
    assert Normals(more[at + 1..]) == Normals(names[at + 1..]) + Normals([n]);
  }

  /**
   Resolving a path extended by one name: the shorter path resolves too, and
   unless the name is a link below the result, the name is simply appended.
   */
  lemma {:induction false} RestartSnoc(fs: Tree, root: Path, names: seq<string>, n: string, followed: nat)
    requires followed <= LINK_BUDGET
    ensures var short := Restart(fs, root, names, followed);
            var long := Restart(fs, root, names + [n], followed);
            && (long.Ok? ==> short.Ok?)
            && (short.Ok? ==>
                  var p := short.value + [n];
                  && (p !in fs ==> long == Err(NotFound))
                  && (p in fs && !fs[p].Link? ==> long == Ok(p)))
    decreases LINK_BUDGET - followed
  {
    ScanPrefix(fs, root, names, [n], 0);
    match Scan(fs, root, names, 0)
    case Clear =>
      ScanNext(fs, root, names, n, []);
      assert names + [n] + [] == names + [n];
      assert root + (names + [n]) == root + names + [n];
    case Missing =>
    case Redirect(at, text) =>
      if followed < LINK_BUDGET {
        RedirectedSnoc(names, n, at, text);
        var cs := Redirected(names, at, text);
        CollapseConcat([], cs, Normals([n]));
        var next := Collapse([], cs);
        if next.Some? {
          CollapseNormals(next.value, [n]);
          RestartSnoc(fs, root, next.value, n, followed + 1);
        }
      }
  }

  /** Having followed more links already changes nothing, unless it exhausts them. */
  lemma {:induction false} RestartSpent(fs: Tree, root: Path, names: seq<string>, few: nat, many: nat)
    requires few <= many <= LINK_BUDGET
    ensures Restart(fs, root, names, many) == Restart(fs, root, names, few)
            || Restart(fs, root, names, many) == Err(TooManyLinks)
    decreases LINK_BUDGET - few
  {
    if Scan(fs, root, names, 0).Redirect? && many < LINK_BUDGET {
      var stop := Scan(fs, root, names, 0);
      var next := Collapse([], Redirected(names, stop.at, stop.text));
      if next.Some? {
        RestartSpent(fs, root, next.value, few + 1, many + 1);
      }
    }
  }

  /** A name after names that resolve is looked up below their result, with some links already followed. */
  lemma {:induction false} RestartVia(
      fs: Tree, root: Path, names: seq<string>, n: string, followed: nat, via: seq<string>)
    returns (spent: nat)
    requires followed <= LINK_BUDGET && Restart(fs, root, names, followed) == Ok(root + via)
    ensures followed <= spent <= LINK_BUDGET
    ensures Restart(fs, root, names + [n], followed) == Restart(fs, root, via + [n], spent)
    decreases LINK_BUDGET - followed
  {
    ScanPrefix(fs, root, names, [n], 0);
    match Scan(fs, root, names, 0)
    case Clear =>
      assert names == (root + names)[|root|..] == (root + via)[|root|..] == via;
      spent := followed;
    case Redirect(at, text) =>
      RedirectedSnoc(names, n, at, text);
      var cs := Redirected(names, at, text);
      CollapseConcat([], cs, Normals([n]));
      var next := Collapse([], cs).value;
      CollapseNormals(next, [n]);
      spent := RestartVia(fs, root, next, n, followed + 1, via);
  }

  // ------------------------------------------------ redirection in texts

  /** `PathBuf::push` of one name after another. */
  function PushAll(path: string, names: seq<string>): string
    decreases names
  {
    if names == [] then path else PushAll(Join(path, names[0]), names[1..])
  }

  lemma {:induction false} PushComponents(path: string, names: seq<string>)
    requires IsAbsolute(path) && AllPlain(names)
    ensures IsAbsolute(PushAll(path, names))
    ensures Components(PushAll(path, names)) == Components(path) + Normals(names)
    decreases names
  {
    hide Components;
    if names != [] {
      var n, rest := names[0], names[1..];
      assert IsPlain(n);
      JoinComponents(path, n);
      SplitWhole(n);
      assert Body([n]) == [Normal(n)];
      PushComponents(Join(path, n), rest);
      assert Normals(names) == [Normal(n)] + Normals(rest);
    }
  }

  /** A link text joined to the directory it stands in, as components: only a leading dot is dropped. */
  lemma JoinCollapses(above: seq<string>, text: string)
    requires AllPlain(above)
    ensures var joined := Join(Text(above), text);
            && IsAbsolute(joined)
            && Collapse([], Components(joined))
               == Collapse([], (if IsAbsolute(text) then [] else [RootDir] + Normals(above)) + Components(text))
  {
    if !IsAbsolute(text) {
      hide Split, Body, Text;
      TextComponents(above);
      JoinComponents(Text(above), text);
      var head := [RootDir] + Normals(above);
      CollapseConcat([], head, Body(Split(text)));
      CollapseConcat([], head, Components(text));
      assert Components(text) == [CurDir] + Body(Split(text)) || Components(text) == Body(Split(text));
      assert ([CurDir] + Body(Split(text)))[1..] == Body(Split(text));
    } else {
      assert [] + Components(text) == Components(text);
    }
  }

  /**
   The components a link leads to are, once normalized, those of the text the
   resolver builds: the link joined to its directory, with the remaining
   names pushed one by one.
   */
  lemma RedirectedIsJoined(names: seq<string>, at: nat, text: string)
    requires AllPlain(names) && at < |names|
    ensures var next := PushAll(Join(Text(names[..at]), text), names[at + 1..]);
            IsAbsolute(next) && Collapse([], Components(next)) == Collapse([], Redirected(names, at, text))
  {
    hide Components, Text, Join, Collapse;
    var above, below := names[..at], names[at + 1..];
    var joined := Join(Text(above), text);
    assert AllPlain(above) && AllPlain(below);
    JoinCollapses(above, text);
    PushComponents(joined, below);
    var front := (if IsAbsolute(text) then [] else [RootDir] + Normals(above)) + Components(text);
    CollapseConcat([], Components(joined), Normals(below));
    CollapseConcat([], front, Normals(below));
  }

  // ------------------------------------------------------- how many links

  /** Nodes below the root, each a link to the next by its absolute path, and the last a directory. */
  ghost predicate LinkChain(fs: Tree, root: Path, name: nat -> string, from: nat, until: nat) {
    && from <= until
    && (forall i :: from <= i <= until ==> IsPlain(name(i)) && root + [name(i)] in fs)
    && (forall i :: from <= i < until ==> fs[root + [name(i)]] == Link(Text([name(i + 1)])))
    && fs[root + [name(until)]] == Dir
  }

  lemma ChainStep(fs: Tree, root: Path, a: string, b: string)
    requires IsPlain(b) && root + [a] in fs && fs[root + [a]] == Link(Text([b]))
    ensures Scan(fs, root, [a], 0) == Redirect(0, Text([b]))
    ensures Collapse([], Redirected([a], 0, Text([b]))) == Some([b])
  {
    assert [a][..1] == [a] && [a][1..] == [];
    assert AllPlain([b]);
    TextComponents([b]);
    assert Redirected([a], 0, Text([b])) == [RootDir] + Normals([b]);
    assert ([RootDir] + Normals([b]))[1..] == Normals([b]);
    CollapseNormals([], [b]);
    assert [] + [b] == [b];
  }

  lemma {:induction false} ChainRestarts(
      fs: Tree, root: Path, name: nat -> string, from: nat, until: nat, followed: nat)
    requires LinkChain(fs, root, name, from, until) && followed <= LINK_BUDGET
    ensures Restart(fs, root, [name(from)], followed)
            == if until - from <= LINK_BUDGET - followed then Ok(root + [name(until)]) else Err(TooManyLinks)
    decreases until - from
  {
    hide Collapse, Redirected;
    if from == until {
      assert [name(from)][..1] == [name(from)];
    } else {
      ChainStep(fs, root, name(from), name(from + 1));
      if followed < LINK_BUDGET {
        ChainRestarts(fs, root, name, from + 1, until, followed + 1);
      }
    }
  }

  /** A chain of links is followed to its end exactly if it has no more than forty. */
  lemma FortyLinks(fs: Tree, root: Path, name: nat -> string, n: nat)
    requires LinkChain(fs, root, name, 0, n)
    ensures Resolve(fs, root, Text([name(0)])) == if n <= 40 then Ok(root + [name(n)]) else Err(TooManyLinks)
  {
    assert AllPlain([name(0)]);
    ResolveText(fs, root, [name(0)]);
    ChainRestarts(fs, root, name, 0, n, 0);
  }
}
