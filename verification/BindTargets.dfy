/**
 Creating the missing parts of a bind target below the merged root: an
 incremental walk that changes the file system as it goes.
 */
module BindTargets {
  import opened Wrappers
  import opened Paths
  import opened Resolver

  // -------------------------------------------------------- specification

  datatype Made = Made(fs: Tree, outcome: Outcome)

  /**
   `ensure_bind_target_directory` from the point where the names `logical`
   have led to the directory `resolved` and the components `rest` remain.
   */
  function EnsureFrom(fs: Tree, root: Path, logical: seq<string>, resolved: Path, rest: seq<Component>): Made
    decreases rest
  {
    if rest == [] then Made(fs, Ok(resolved))
    else if rest[0].RootDir? then EnsureFrom(fs, root, logical, resolved, rest[1..])
    else if !rest[0].Normal? then Made(fs, Err(Escapes))
    else
      var n := rest[0].name;
      var candidate := resolved + [n];
      if candidate !in fs then
        EnsureFrom(fs[candidate := Dir], root, logical + [n], candidate, rest[1..])
      else match fs[candidate]
        case Dir => EnsureFrom(fs, root, logical + [n], candidate, rest[1..])
        case File => Made(fs, Err(NotADirectory))
        case Link(_) =>
          match Resolve(fs, root, Text(logical + [n]))
          case Err(e) => Made(fs, Err(e))
          case Ok(p) =>
            if IsDir(fs, p) then EnsureFrom(fs, root, logical + [n], p, rest[1..])
            else Made(fs, Err(NotADirectory))
  }

  function EnsureDirectory(fs: Tree, root: Path, target: string): Made {
    EnsureFrom(fs, root, [], root, Components(target))
  }

  /** The kind of a bind source decides what a missing target is created as. */
  datatype SourceKind = DirSource | FileSource | OtherSource

  /** `ensure_bind_target`, below the parent's components and its last name. */
  function EnsureTarget(fs: Tree, root: Path, parent: string, name: string, kind: SourceKind): Made {
    var made := EnsureDirectory(fs, root, parent);
    match made.outcome
    case Err(_) => made
    case Ok(p) =>
      var target := p + [name];
      if target in made.fs then Made(made.fs, Ok(target))
      else match kind
        case DirSource => Made(made.fs[target := Dir], Ok(target))
        case FileSource => Made(made.fs[target := File], Ok(target))
        case OtherSource => Made(made.fs, Err(UnsupportedSource))
  }

  // ------------------------------------------------------- the algorithms

  /** The merged root file system, changed in place. */
  class FileTree {
    var nodes: Tree

    constructor (fs: Tree)
      ensures nodes == fs
    {
      nodes := fs;
    }

    /** `create_directory`: an existing node is left as it is. */
    method CreateDirectory(p: Path)
      modifies this
      ensures nodes == if p in old(nodes) then old(nodes) else old(nodes)[p := Dir]
    {
      if p !in nodes {
        nodes := nodes[p := Dir];
      }
    }

    /** `ensure_bind_target_directory`. */
    method EnsureBindTargetDirectory(root: Path, target: string) returns (r: Outcome)
      modifies this
      ensures Made(nodes, r) == EnsureDirectory(old(nodes), root, target)
    {
      var components := Components(target);
      var logical: seq<string> := [];
      var resolved := root;
      var i := 0;
      while i < |components|
        invariant 0 <= i <= |components|
        invariant EnsureDirectory(old(nodes), root, target)
                  == EnsureFrom(nodes, root, logical, resolved, components[i..])
      {
        assert components[i..][1..] == components[i + 1..];
        if components[i].Normal? {
          var name := components[i].name;
          logical := logical + [name];
          var candidate := resolved + [name];
          if candidate !in nodes {
            CreateDirectory(candidate);
            resolved := candidate;
          } else {
            match nodes[candidate] {
              case Link(_) =>
                var answer, _ := ResolveTarget(nodes, root, Text(logical));
                if answer.Err? {
                  return answer;
                }
                resolved := answer.value;
                if !IsDir(nodes, resolved) {
                  return Err(NotADirectory);
                }
              case Dir => resolved := candidate;
              case File => return Err(NotADirectory);
            }
          }
        } else if !components[i].RootDir? {
          return Err(Escapes);
        }
        i := i + 1;
      }
      return Ok(resolved);
    }

    /** `ensure_bind_target`. */
    method EnsureBindTarget(root: Path, parent: string, name: string, kind: SourceKind) returns (r: Outcome)
      modifies this
      ensures Made(nodes, r) == EnsureTarget(old(nodes), root, parent, name, kind)
    {
      r := EnsureBindTargetDirectory(root, parent);
      if r.Err? {
        return;
      }
      var target := r.value + [name];
      if target in nodes {
        return Ok(target);
      }
      match kind {
        case DirSource => nodes := nodes[target := Dir];
        case FileSource => nodes := nodes[target := File];
        case OtherSource => return Err(UnsupportedSource);
      }
      return Ok(target);
    }
  }

  // --------------------------------------------------------- main theorems

  /** `bigger` adds to `fs` only directories strictly below `root`. */
  ghost predicate AddsDirectories(fs: Tree, bigger: Tree, root: Path) {
    && Extends(fs, bigger)
    && forall p :: p in bigger && p !in fs ==> bigger[p] == Dir && root < p
  }

  lemma AddDirectory(fs: Tree, root: Path, parent: Path, n: string)
    requires WellFormed(fs) && IsDir(fs, parent) && root <= parent && parent + [n] !in fs
    ensures WellFormed(fs[parent + [n] := Dir])
    ensures AddsDirectories(fs, fs[parent + [n] := Dir], root)
  {
    var p := parent + [n];
    var bigger := fs[p := Dir];
    assert Parent(p) == parent;
    forall q | q in bigger
      ensures IsDir(bigger, Parent(q))
    {
      if q != p {
        assert IsDir(fs, Parent(q));
      }
    }
    assert root < p by { assert p[..|root|] == root; }
  }

  /** One name further, the resolver and the incremental walk still agree. */
  lemma StepKeepsResolution(fs: Tree, root: Path, logical: seq<string>, resolved: Path, n: string)
    requires Restart(fs, root, logical, 0) == Ok(resolved)
    requires IsDir(fs, resolved + [n])
    ensures Restart(fs, root, logical + [n], 0) == Ok(resolved + [n])
  {
    RestartSnoc(fs, root, logical, n, 0);
  }

  lemma ResultBelowRoot(fs: Tree, root: Path, names: seq<string>)
    ensures var r := Restart(fs, root, names, 0); r.Ok? ==> root <= r.value
  {
    RestartConfined(fs, root, names, 0);
  }

  /**
   Restarting and walking on agree along the whole creation: if the names so
   far resolve to `resolved`, then in the file system the walk leaves behind
   all the names resolve to what it returns.
   */
  lemma {:induction false} EnsureFromResolves(
      fs: Tree, root: Path, logical: seq<string>, resolved: Path, names: seq<string>)
    requires WellFormed(fs) && AllPlain(logical) && AllPlain(names)
    requires IsDir(fs, resolved) && Restart(fs, root, logical, 0) == Ok(resolved)
    ensures var made := EnsureFrom(fs, root, logical, resolved, Normals(names));
            && WellFormed(made.fs)
            && AddsDirectories(fs, made.fs, root)
            && (made.outcome.Ok? ==>
                  && IsDir(made.fs, made.outcome.value)
                  && Restart(made.fs, root, logical + names, 0) == made.outcome)
    decreases names
  {
    ResultBelowRoot(fs, root, logical);
    if names == [] {
      assert logical + names == logical;
    } else {
      var n, rest := names[0], names[1..];
      assert IsPlain(n);
      assert Normals(names)[1..] == Normals(rest);
      assert logical + [n] + rest == logical + names;
      var candidate := resolved + [n];
      if candidate !in fs {
        var bigger := fs[candidate := Dir];
        AddDirectory(fs, root, resolved, n);
        RestartMonotone(fs, bigger, root, logical, 0);
        StepKeepsResolution(bigger, root, logical, resolved, n);
        EnsureFromResolves(bigger, root, logical + [n], candidate, rest);
      } else if fs[candidate] == Dir {
        StepKeepsResolution(fs, root, logical, resolved, n);
        EnsureFromResolves(fs, root, logical + [n], candidate, rest);
      } else if fs[candidate].Link? {
        ResolveText(fs, root, logical + [n]);
        var answer := Restart(fs, root, logical + [n], 0);
        if answer.Ok? && IsDir(fs, answer.value) {
          EnsureFromResolves(fs, root, logical + [n], answer.value, rest);
        }
      }
    }
  }

  /** An absolute target without `..`, as both validators demand. */
  predicate CleanTarget(target: string) {
    IsAbsolute(target) && forall c :: c in Components(target) ==> c.RootDir? || c.Normal?
  }

  lemma CleanTargetNames(target: string) returns (names: seq<string>)
    requires CleanTarget(target)
    ensures AllPlain(names) && Components(target) == [RootDir] + Normals(names)
    ensures Components(Text(names)) == Components(target)
  {
    ComponentsShape(target);
    var cs := Components(target);
    names := seq(|cs| - 1, i requires 0 <= i < |cs| - 1 =>
      if cs[i + 1].Normal? then cs[i + 1].name else "");
    forall i | 0 <= i < |names|
      ensures cs[i + 1] == Normal(names[i]) && IsPlain(names[i])
    {
      assert cs[i + 1] in cs;
    }
    assert cs == [RootDir] + Normals(names);
    TextComponents(names);
  }

  /**
   On success the incremental walk returns exactly what `resolve_target` gives
   for the same path in the file system it leaves behind; every old node and
   every old successful resolution is kept, and only directories are added.
   */
  lemma EnsureDirectoryResolves(fs: Tree, root: Path, target: string)
    requires WellFormed(fs) && IsDir(fs, root) && CleanTarget(target)
    ensures var made := EnsureDirectory(fs, root, target);
            && WellFormed(made.fs)
            && AddsDirectories(fs, made.fs, root)
            && (made.outcome.Ok? ==>
                  IsDir(made.fs, made.outcome.value) && Resolve(made.fs, root, target) == made.outcome)
            && forall other :: Resolve(fs, root, other).Ok?
                 ==> Resolve(made.fs, root, other) == Resolve(fs, root, other)
  {
    var names := CleanTargetNames(target);
    assert Components(target)[1..] == Normals(names);
    assert root + [] == root && [] + names == names;
    EnsureFromResolves(fs, root, [], root, names);
    var made := EnsureDirectory(fs, root, target);
    CollapseNormals([], names);
    forall other | Resolve(fs, root, other).Ok?
      ensures Resolve(made.fs, root, other) == Resolve(fs, root, other)
    {
      ResolveMonotone(fs, made.fs, root, other);
    }
  }

  /** Where the path already resolves to a directory, nothing is created. */
  lemma {:induction false} EnsureFromIdle(
      fs: Tree, root: Path, logical: seq<string>, resolved: Path, names: seq<string>)
    requires WellFormed(fs) && AllPlain(logical) && AllPlain(names)
    requires IsDir(fs, resolved) && Restart(fs, root, logical, 0) == Ok(resolved)
    requires Restart(fs, root, logical + names, 0).Ok?
    requires IsDir(fs, Restart(fs, root, logical + names, 0).value)
    ensures EnsureFrom(fs, root, logical, resolved, Normals(names))
            == Made(fs, Restart(fs, root, logical + names, 0))
    decreases names
  {
    if names == [] {
      assert logical + names == logical;
    } else {
      var n, rest := names[0], names[1..];
      assert IsPlain(n);
      assert Normals(names)[1..] == Normals(rest);
      assert logical + [n] + rest == logical + names;
      PrefixResolves(fs, root, logical + [n], rest);
      RestartSnoc(fs, root, logical, n, 0);
      ResolveText(fs, root, logical + [n]);
      EnsureFromIdle(fs, root, logical + [n], Restart(fs, root, logical + [n], 0).value, rest);
    }
  }

  /** Every ancestor of a path that resolves to a directory does so too. */
  lemma {:induction false} PrefixResolves(fs: Tree, root: Path, a: seq<string>, b: seq<string>)
    requires WellFormed(fs)
    requires Restart(fs, root, a + b, 0).Ok? && IsDir(fs, Restart(fs, root, a + b, 0).value)
    ensures Restart(fs, root, a, 0).Ok? && IsDir(fs, Restart(fs, root, a, 0).value)
    decreases b
  {
    if b == [] {
      assert a + b == a;
    } else {
      var short := a + b[..|b| - 1];
      assert a + b == short + [b[|b| - 1]];
      RestartSnoc(fs, root, short, b[|b| - 1], 0);
      var p := Restart(fs, root, short, 0).value;
      assert Parent(p + [b[|b| - 1]]) == p;
      PrefixResolves(fs, root, a, b[..|b| - 1]);
    }
  }

  /** Running the creation twice is running it once. */
  lemma EnsureDirectoryIdempotent(fs: Tree, root: Path, target: string)
    requires WellFormed(fs) && IsDir(fs, root) && CleanTarget(target)
    requires EnsureDirectory(fs, root, target).outcome.Ok?
    ensures var made := EnsureDirectory(fs, root, target);
            EnsureDirectory(made.fs, root, target) == made
  {
    var made := EnsureDirectory(fs, root, target);
    EnsureDirectoryResolves(fs, root, target);
    var names := CleanTargetNames(target);
    assert Components(target)[1..] == Normals(names);
    assert root + [] == root && [] + names == names;
    CollapseNormals([], names);
    EnsureFromIdle(made.fs, root, [], root, names);
  }

  /**
   The whole target: it resolves to the node that was found or created below
   the resolved parent. If a link already stood there, it resolves to whatever
   that link does, or runs out of links on the way.
   */
  lemma EnsureTargetResolves(fs: Tree, root: Path, parent: seq<string>, name: string, kind: SourceKind)
    requires WellFormed(fs) && IsDir(fs, root) && AllPlain(parent) && IsPlain(name)
    ensures var made := EnsureTarget(fs, root, Text(parent), name, kind);
            && WellFormed(made.fs)
            && Extends(fs, made.fs)
            && (forall p :: p in made.fs && p !in fs ==> root < p && !made.fs[p].Link?)
            && (made.outcome.Ok? ==>
                  var p := made.outcome.value;
                  && root <= p && p in made.fs
                  && (made.fs[p].Link? ==>
                        && p in fs
                        && var r := Resolve(made.fs, root, Text(parent + [name]));
                           r == Resolve(made.fs, root, Text(p[|root|..])) || r == Err(TooManyLinks))
                  && (!made.fs[p].Link? ==> Resolve(made.fs, root, Text(parent + [name])) == made.outcome))
  {
    TextComponents(parent);
    EnsureDirectoryResolves(fs, root, Text(parent));
    var dir := EnsureDirectory(fs, root, Text(parent));
    if dir.outcome.Ok? {
      var up := dir.outcome.value;
      ResolveText(dir.fs, root, parent);
      ResultBelowRoot(dir.fs, root, parent);
      var made := EnsureTarget(fs, root, Text(parent), name, kind);
      if made.outcome.Ok? {
        NewLeaf(dir.fs, made.fs, root, up, name, made.fs[up + [name]]);
        RestartMonotone(dir.fs, made.fs, root, parent, 0);
        RestartSnoc(made.fs, root, parent, name, 0);
        ResolveText(made.fs, root, parent + [name]);
        if made.fs[up + [name]].Link? {
          LinkResolves(dir.fs, root, parent, up, name);
        }
      }
    }
  }

  lemma LinkResolves(fs: Tree, root: Path, parent: seq<string>, up: Path, name: string)
    requires AllPlain(parent) && IsPlain(name) && root <= up && Restart(fs, root, parent, 0) == Ok(up)
    ensures var r := Restart(fs, root, parent + [name], 0);
            r == Resolve(fs, root, Text((up + [name])[|root|..])) || r == Err(TooManyLinks)
  {
    var via := up[|root|..];
    assert up == root + via && (up + [name])[|root|..] == via + [name];
    RestartPlain(fs, root, parent, 0);
    assert AllPlain(via + [name]);
    ResolveText(fs, root, via + [name]);
    var spent := RestartVia(fs, root, parent, name, 0, via);
    RestartSpent(fs, root, via + [name], 0, spent);
  }

  lemma NewLeaf(fs: Tree, bigger: Tree, root: Path, parent: Path, n: string, node: Node)
    requires WellFormed(fs) && IsDir(fs, parent) && root <= parent
    requires bigger == fs || (parent + [n] !in fs && bigger == fs[parent + [n] := node])
    ensures WellFormed(bigger) && Extends(fs, bigger)
    ensures forall p :: p in bigger && p !in fs ==> root < p
  {
    if bigger != fs {
      LeafKeepsParents(fs, parent, n, node);
      assert root < parent + [n] by { assert (parent + [n])[..|root|] == root; }
    }
  }

  lemma LeafKeepsParents(fs: Tree, parent: Path, n: string, node: Node)
    requires WellFormed(fs) && IsDir(fs, parent) && parent + [n] !in fs
    ensures WellFormed(fs[parent + [n] := node])
  {
    var p := parent + [n];
    var bigger := fs[p := node];
    assert Parent(p) == parent;
    forall q {:trigger Parent(q)} | q in bigger
      ensures IsDir(bigger, Parent(q))
    {
      if q != p {
        assert IsDir(fs, Parent(q));
      }
    }
  }

  // ---------------------------------------------- when a target can be made

  /**
   Name `k` stands in the way: below the directory the earlier names lead to
   there is a node of that name which neither is nor leads to a directory.
   */
  ghost predicate Blocked(fs: Tree, root: Path, names: seq<string>, k: nat) {
    && k < |names| && Restart(fs, root, names[..k], 0).Ok?
    && var p := Restart(fs, root, names[..k], 0).value + [names[k]];
       && p in fs && !fs[p].Dir?
       && var r := Restart(fs, root, names[..k + 1], 0);
          !(r.Ok? && IsDir(fs, r.value))
  }

  /** Where the walk goes from the first of some names, if it goes on. */
  function Onward(fs: Tree, root: Path, logical: seq<string>, resolved: Path, n: string): Option<(Tree, Path)> {
    var candidate := resolved + [n];
    if candidate !in fs then Some((fs[candidate := Dir], candidate))
    else if fs[candidate] == Dir then Some((fs, candidate))
    else if fs[candidate].File? then None
    else
      var r := Restart(fs, root, logical + [n], 0);
      if r.Ok? && IsDir(fs, r.value) then Some((fs, r.value)) else None
  }

  lemma EnsureOnward(fs: Tree, root: Path, logical: seq<string>, resolved: Path, names: seq<string>)
    requires AllPlain(logical) && AllPlain(names) && names != []
    ensures var made := EnsureFrom(fs, root, logical, resolved, Normals(names));
            match Onward(fs, root, logical, resolved, names[0])
            case None => made.fs == fs && made.outcome.Err?
            case Some((next, p)) => made == EnsureFrom(next, root, logical + [names[0]], p, Normals(names[1..]))
  {
    hide Restart, Resolve;
    assert Normals(names)[1..] == Normals(names[1..]);
    assert AllPlain(logical + [names[0]]);
    ResolveText(fs, root, logical + [names[0]]);
  }

  lemma OnwardKeeps(fs: Tree, root: Path, logical: seq<string>, resolved: Path, n: string)
    requires WellFormed(fs) && IsDir(fs, resolved) && Restart(fs, root, logical, 0) == Ok(resolved)
    requires Onward(fs, root, logical, resolved, n).Some?
    ensures var (next, p) := Onward(fs, root, logical, resolved, n).value;
            WellFormed(next) && IsDir(next, p) && Restart(next, root, logical + [n], 0) == Ok(p)
  {
    hide Restart;
    var candidate := resolved + [n];
    ResultBelowRoot(fs, root, logical);
    if candidate !in fs {
      AddDirectory(fs, root, resolved, n);
      RestartMonotone(fs, fs[candidate := Dir], root, logical, 0);
      StepKeepsResolution(fs[candidate := Dir], root, logical, resolved, n);
    } else if fs[candidate] == Dir {
      StepKeepsResolution(fs, root, logical, resolved, n);
    }
  }

  lemma NoWayOn(fs: Tree, root: Path, logical: seq<string>, resolved: Path, names: seq<string>)
    requires Restart(fs, root, logical, 0) == Ok(resolved) && names != []
    requires Onward(fs, root, logical, resolved, names[0]).None?
    ensures Blocked(fs, root, logical + names, |logical|)
  {
    hide Restart;
    var all := logical + names;
    assert all[..|logical|] == logical && all[..|logical| + 1] == logical + [names[0]];
    RestartSnoc(fs, root, logical, names[0], 0);
  }

  lemma {:induction false} EnsureFromFails(
      fs: Tree, root: Path, logical: seq<string>, resolved: Path, names: seq<string>) returns (k: nat)
    requires WellFormed(fs) && AllPlain(logical) && AllPlain(names)
    requires IsDir(fs, resolved) && Restart(fs, root, logical, 0) == Ok(resolved)
    requires EnsureFrom(fs, root, logical, resolved, Normals(names)).outcome.Err?
    ensures Blocked(EnsureFrom(fs, root, logical, resolved, Normals(names)).fs, root, logical + names, k)
    decreases names
  {
    assert names != [];
    hide Restart, EnsureFrom, Onward, Blocked, WellFormed;
    EnsureOnward(fs, root, logical, resolved, names);
    match Onward(fs, root, logical, resolved, names[0])
    case None =>
      NoWayOn(fs, root, logical, resolved, names);
      k := |logical|;
    case Some((next, p)) =>
      OnwardKeeps(fs, root, logical, resolved, names[0]);
      assert IsPlain(names[0]);
      k := EnsureFromFails(next, root, logical + [names[0]], p, names[1..]);
      assert logical + [names[0]] + names[1..] == logical + names;
  }

  lemma WalkFromRoot(fs: Tree, root: Path, names: seq<string>)
    requires AllPlain(names)
    ensures EnsureDirectory(fs, root, Text(names)) == EnsureFrom(fs, root, [], root, Normals(names))
    ensures Restart(fs, root, [], 0) == Ok(root)
  {
    TextComponents(names);
    assert ([RootDir] + Normals(names))[1..] == Normals(names);
    assert root + [] == root;
  }

  /** The walk fails exactly if, in the file system it leaves behind, some name stands in the way. */
  lemma EnsureDirectoryFails(fs: Tree, root: Path, names: seq<string>)
    requires WellFormed(fs) && IsDir(fs, root) && AllPlain(names)
    ensures var made := EnsureDirectory(fs, root, Text(names));
            made.outcome.Err? <==> exists k :: Blocked(made.fs, root, names, k)
  {
    hide EnsureDirectory, EnsureFrom, Restart, WellFormed, Text;
    var made := EnsureDirectory(fs, root, Text(names));
    WalkFromRoot(fs, root, names);
    assert [] + names == names;
    if made.outcome.Err? {
      var k := EnsureFromFails(fs, root, [], root, names);
      assert Blocked(made.fs, root, names, k);
    } else {
      EnsureFromResolves(fs, root, [], root, names);
      hide Blocked;
      forall k: nat
        ensures !Blocked(made.fs, root, names, k)
      {
        NothingBlocks(made.fs, root, names, k);
      }
    }
  }

  lemma NothingBlocks(fs: Tree, root: Path, names: seq<string>, k: nat)
    requires WellFormed(fs) && Restart(fs, root, names, 0).Ok? && IsDir(fs, Restart(fs, root, names, 0).value)
    ensures !Blocked(fs, root, names, k)
  {
    hide Restart, WellFormed;
    if k < |names| {
      assert names[..k + 1] + names[k + 1..] == names;
      PrefixResolves(fs, root, names[..k + 1], names[k + 1..]);
    }
  }

  /** A missing target is created as what its source is; only a source of neither kind is refused. */
  lemma CreatedKind(fs: Tree, root: Path, parent: seq<string>, name: string, kind: SourceKind)
    requires EnsureDirectory(fs, root, Text(parent)).outcome.Ok?
    ensures var before := EnsureDirectory(fs, root, Text(parent));
            var p := before.outcome.value + [name];
            var made := EnsureTarget(fs, root, Text(parent), name, kind);
            && (p in before.fs ==> made == Made(before.fs, Ok(p)))
            && (p !in before.fs ==>
                  && (kind.DirSource? ==> made == Made(before.fs[p := Dir], Ok(p)))
                  && (kind.FileSource? ==> made == Made(before.fs[p := File], Ok(p)))
                  && (kind.OtherSource? ==> made == Made(before.fs, Err(UnsupportedSource))))
  {
  }
}
