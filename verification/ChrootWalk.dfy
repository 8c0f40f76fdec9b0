/**
 The resolver compared with a plain step-by-step walk: one component at a time,
 `..` to the real parent of the directory reached so far, links expanded in
 place. This is what a process confined to the root would see.
 */
module ChrootWalk {
  import opened Wrappers
  import opened Paths
  import opened Resolver

  /** Walk `rest` from the link-free directory or file `root + cur`. */
  function Walk(fs: Tree, root: Path, cur: seq<string>, rest: seq<Component>, followed: nat): Outcome
    requires followed <= LINK_BUDGET
    decreases LINK_BUDGET - followed, |rest|
  {
    if rest == [] then Ok(root + cur)
    else match rest[0]
      case RootDir => Walk(fs, root, [], rest[1..], followed)
      case CurDir => Walk(fs, root, cur, rest[1..], followed)
      case ParentDir =>
        if !IsDir(fs, root + cur) then Err(NotADirectory)
        else if cur == [] then Err(Escapes)
        else Walk(fs, root, cur[..|cur| - 1], rest[1..], followed)
      case Normal(name) =>
        var p := root + cur + [name];
        if p !in fs then Err(NotFound)
        else if !fs[p].Link? then Walk(fs, root, cur + [name], rest[1..], followed)
        else if followed == LINK_BUDGET then Err(TooManyLinks)
        else Walk(fs, root, cur, Components(fs[p].text) + rest[1..], followed + 1)
  }

  /** No `..` behind a name: text and file system then agree on its meaning. */
  predicate Tidy(cs: seq<Component>) {
    forall i, j :: 0 <= i < j < |cs| && cs[i].Normal? ==> cs[j] != ParentDir
  }

  /** Tidy, or an absolute text that climbs above the root at once. */
  predicate Harmless(cs: seq<Component>) {
    Tidy(cs) || (|cs| >= 2 && cs[0].RootDir? && cs[1].ParentDir?)
  }

  ghost predicate HarmlessLinks(fs: Tree) {
    forall p :: p in fs && fs[p].Link? ==> Harmless(Components(fs[p].text))
  }

  /** Both readings refuse a text that climbs above the root at once. */
  lemma ClimbsAtOnce(fs: Tree, root: Path, cur: seq<string>, cs: seq<Component>, more: seq<Component>, followed: nat)
    requires followed <= LINK_BUDGET && IsDir(fs, root)
    requires |cs| >= 2 && cs[0].RootDir? && cs[1].ParentDir?
    ensures Walk(fs, root, cur, cs + more, followed) == Err(Escapes)
    ensures Collapse([], cs + more).None?
  {
    var all := cs + more;
    assert all[0] == cs[0] && all[1..][0] == cs[1];
    assert root + [] == root;
  }

  lemma {:induction false} OnlyNames(cs: seq<Component>)
    requires forall c :: c in cs ==> c.Normal?
    ensures cs == Normals(Names(cs))
    decreases cs
  {
    if cs != [] {
      OnlyNames(cs[1..]);
      assert cs[0] in cs;
      assert cs == [cs[0]] + cs[1..];
      NormalsStep(cs[0].name, Names(cs[1..]));
    }
  }

  lemma NormalsStep(n: string, names: seq<string>)
    ensures Normals([n] + names) == [Normal(n)] + Normals(names)
  {
  }

  /** After a first name only names follow, for texts and for what they lead to. */
  lemma TidyTail(cs: seq<Component>)
    requires Tidy(cs) && cs != [] && cs[0].Normal?
    requires forall i :: 0 < i < |cs| ==> cs[i].ParentDir? || cs[i].Normal?
    ensures cs == Normals(Names(cs))
  {
    forall c | c in cs
      ensures c.Normal?
    {
      var i :| 0 <= i < |cs| && cs[i] == c;
    }
    OnlyNames(cs);
  }

  /** Removing the last name of a link-free path leaves a link-free directory. */
  lemma ClearParent(fs: Tree, root: Path, cur: seq<string>)
    requires WellFormed(fs) && cur != [] && Scan(fs, root, cur, 0) == Clear && root in fs
    ensures var up := cur[..|cur| - 1];
            Scan(fs, root, up, 0) == Clear && IsDir(fs, root + up)
  {
    var up := cur[..|cur| - 1];
    ScanClear(fs, root, cur, 0);
    ScanClear(fs, root, up, 0);
    assert cur[..|cur|] == cur;
    assert Parent(root + cur) == root + up;
    forall i | 0 < i <= |up|
      ensures root + up[..i] in fs && !fs[root + up[..i]].Link?
    {
      assert up[..i] == cur[..i];
    }
  }

  /**
   The part of a redirected path in front of its names: both readings climb
   the same real directories, and fail together when they reach the root.
   */
  lemma {:induction false} HeadsAgree(
      fs: Tree, root: Path, cur: seq<string>, cs: seq<Component>, tail: seq<string>, followed: nat)
    requires WellFormed(fs) && IsDir(fs, root) && followed <= LINK_BUDGET
    requires Scan(fs, root, cur, 0) == Clear && IsDir(fs, root + cur)
    requires Tidy(cs) && (forall i :: 0 < i < |cs| ==> cs[i].ParentDir? || cs[i].Normal?)
    requires cs != [] && cs[0].RootDir? ==> cur == []
    ensures var walked := Walk(fs, root, cur, cs + Normals(tail), followed);
            match Collapse(cur, cs + Normals(tail))
            case None => walked == Err(Escapes)
            case Some(names) => HeadsSplit(fs, root, cur, cs + Normals(tail), names, followed)
    decreases cs
  {
    var all := cs + Normals(tail);
    if cs == [] || cs[0].Normal? {
      var more := Names(cs) + tail;
      if cs != [] {
        TidyTail(cs);
      }
      assert all == Normals(more);
      CollapseNormals(cur, more);
    } else {
      assert all[1..] == cs[1..] + Normals(tail);
      assert forall i :: 0 <= i < |cs[1..]| ==> cs[1..][i] == cs[i + 1];
      match cs[0]
      case RootDir => HeadsAgree(fs, root, [], cs[1..], tail, followed);
      case CurDir => HeadsAgree(fs, root, cur, cs[1..], tail, followed);
      case ParentDir =>
        if cur != [] {
          ClearParent(fs, root, cur);
          HeadsAgree(fs, root, cur[..|cur| - 1], cs[1..], tail, followed);
        }
    }
  }

  /** One step of the walk over a name. */
  lemma WalkName(fs: Tree, root: Path, cur: seq<string>, n: string, rest: seq<string>, followed: nat)
    requires followed <= LINK_BUDGET
    ensures var p := root + cur + [n];
            Walk(fs, root, cur, Normals([n] + rest), followed) ==
            if p !in fs then Err(NotFound)
            else if !fs[p].Link? then Walk(fs, root, cur + [n], Normals(rest), followed)
            else if followed == LINK_BUDGET then Err(TooManyLinks)
            else Walk(fs, root, cur, Components(fs[p].text) + Normals(rest), followed + 1)
  {
    assert Normals([n] + rest)[1..] == Normals(rest);
  }

  /** One pass of the restarting resolver up to the name behind a clear prefix. */
  lemma RestartName(fs: Tree, root: Path, cur: seq<string>, n: string, rest: seq<string>, followed: nat)
    requires followed <= LINK_BUDGET && Scan(fs, root, cur, 0) == Clear
    ensures var p := root + cur + [n];
            var r := Restart(fs, root, cur + [n] + rest, followed);
            && (p !in fs ==> r == Err(NotFound))
            && (p in fs && fs[p].Link? ==>
                  r == if followed == LINK_BUDGET then Err(TooManyLinks)
                       else AfterLink(fs, root, cur, fs[p].text, rest, followed))
            && (p in fs && !fs[p].Link? ==> Scan(fs, root, cur + [n], 0) == Clear)
  {
    ScanNext(fs, root, cur, n, rest);
    var names := cur + [n] + rest;
    assert names[..|cur|] == cur && names[|cur| + 1..] == rest;
    var p := root + cur + [n];
    if p in fs && fs[p].Link? {
      RedirectedCollapse(names, |cur|, fs[p].text, cur, rest);
    }
  }

  function AfterLink(
      fs: Tree, root: Path, cur: seq<string>, text: string, rest: seq<string>, followed: nat): Outcome
    requires followed < LINK_BUDGET
  {
    match Collapse(if IsAbsolute(text) then [] else cur, Components(text) + Normals(rest))
    case None => Err(Escapes)
    case Some(next) => Restart(fs, root, next, followed + 1)
  }

  /** Below a link-free prefix, restarting from the root equals walking on. */
  lemma {:induction false} RestartIsWalk(
      fs: Tree, root: Path, cur: seq<string>, names: seq<string>, followed: nat)
    requires WellFormed(fs) && IsDir(fs, root) && HarmlessLinks(fs) && followed <= LINK_BUDGET
    requires Scan(fs, root, cur, 0) == Clear && root + cur in fs
    ensures Restart(fs, root, cur + names, followed) == Walk(fs, root, cur, Normals(names), followed)
    decreases LINK_BUDGET - followed, |names|
  {
    if names == [] {
      assert cur + names == cur;
    } else {
      var n, rest := names[0], names[1..];
      var p := root + cur + [n];
      assert names == [n] + rest;
      assert cur + names == cur + [n] + rest;
      RestartName(fs, root, cur, n, rest, followed);
      WalkName(fs, root, cur, n, rest, followed);
      if p in fs && !fs[p].Link? {
        assert root + (cur + [n]) == p;
        RestartIsWalk(fs, root, cur + [n], rest, followed);
      } else if p in fs && followed < LINK_BUDGET {
        assert Parent(p) == root + cur;
        LinkIsWalk(fs, root, cur, fs[p].text, rest, followed);
      }
    }
  }

  lemma {:induction false} LinkIsWalk(
      fs: Tree, root: Path, cur: seq<string>, text: string, rest: seq<string>, followed: nat)
    requires WellFormed(fs) && IsDir(fs, root) && HarmlessLinks(fs) && followed < LINK_BUDGET
    requires Scan(fs, root, cur, 0) == Clear && IsDir(fs, root + cur) && Harmless(Components(text))
    ensures AfterLink(fs, root, cur, text, rest, followed)
            == Walk(fs, root, cur, Components(text) + Normals(rest), followed + 1)
    decreases LINK_BUDGET - followed, 0
  {
    hide Components, Normals, Scan, WellFormed, HarmlessLinks, Walk, Restart, HeadsSplit, Tidy;
    if !Tidy(Components(text)) {
      ComponentsShape(text);
      ClimbsAtOnce(fs, root, cur, Components(text), Normals(rest), followed + 1);
      return;
    }
    LinkHeads(fs, root, cur, text, rest, followed + 1);
    var cs := Components(text) + Normals(rest);
    var next := Collapse(if IsAbsolute(text) then [] else cur, cs);
    match next
    case None =>
    case Some(names) => ContinueIsWalk(fs, root, cur, cs, names, followed + 1);
  }

  /** What follows the heads of a path: one restart against one more walk. */
  lemma {:induction false} ContinueIsWalk(
      fs: Tree, root: Path, cur: seq<string>, cs: seq<Component>, names: seq<string>, followed: nat)
    requires WellFormed(fs) && IsDir(fs, root) && HarmlessLinks(fs) && followed <= LINK_BUDGET
    requires HeadsSplit(fs, root, cur, cs, names, followed)
    ensures Restart(fs, root, names, followed) == Walk(fs, root, cur, cs, followed)
    decreases LINK_BUDGET - followed, |names| + 1
  {
    var b, more := HeadsWitness(fs, root, cur, cs, names, followed);
    assert |more| <= |names|;
    RestartIsWalk(fs, root, b, more, followed);
  }

  lemma LinkHeads(fs: Tree, root: Path, cur: seq<string>, text: string, rest: seq<string>, followed: nat)
    requires WellFormed(fs) && IsDir(fs, root) && followed <= LINK_BUDGET
    requires Scan(fs, root, cur, 0) == Clear && IsDir(fs, root + cur) && Tidy(Components(text))
    ensures var cs := Components(text) + Normals(rest);
            match Collapse(if IsAbsolute(text) then [] else cur, cs)
            case None => Walk(fs, root, cur, cs, followed) == Err(Escapes)
            case Some(names) => HeadsSplit(fs, root, cur, cs, names, followed)
  {
    var base := if IsAbsolute(text) then [] else cur;
    assert root + [] == root;
    ComponentsShape(text);
    HeadsAgree(fs, root, base, Components(text), rest, followed);
    WalkFromBase(fs, root, cur, text, rest, followed);
    var cs := Components(text) + Normals(rest);
    var collapsed := Collapse(base, cs);
    if collapsed.Some? {
      var b, more := HeadsWitness(fs, root, base, cs, collapsed.value, followed);
    }
  }

  lemma HeadsWitness(
      fs: Tree, root: Path, base: seq<string>, cs: seq<Component>, names: seq<string>, followed: nat)
      returns (b: seq<string>, more: seq<string>)
    requires followed <= LINK_BUDGET && HeadsSplit(fs, root, base, cs, names, followed)
    ensures names == b + more && Scan(fs, root, b, 0) == Clear && IsDir(fs, root + b)
    ensures Walk(fs, root, base, cs, followed) == Walk(fs, root, b, Normals(more), followed)
  {
    b, more :|
      && names == b + more
      && Scan(fs, root, b, 0) == Clear && IsDir(fs, root + b)
      && Walk(fs, root, base, cs, followed) == Walk(fs, root, b, Normals(more), followed);
  }

  ghost predicate HeadsSplit(
      fs: Tree, root: Path, base: seq<string>, cs: seq<Component>, names: seq<string>, followed: nat)
    requires followed <= LINK_BUDGET
  {
    exists b, more ::
      && names == b + more
      && Scan(fs, root, b, 0) == Clear && IsDir(fs, root + b)
      && Walk(fs, root, base, cs, followed) == Walk(fs, root, b, Normals(more), followed)
  }

  /** The walk forgets where it stood when an absolute link sends it to the root. */
  lemma WalkFromBase(fs: Tree, root: Path, cur: seq<string>, text: string, rest: seq<string>, followed: nat)
    requires followed <= LINK_BUDGET
    ensures var base := if IsAbsolute(text) then [] else cur;
            Walk(fs, root, cur, Components(text) + Normals(rest), followed)
            == Walk(fs, root, base, Components(text) + Normals(rest), followed)
  {
    ComponentsShape(text);
  }

  lemma RedirectedCollapse(names: seq<string>, at: nat, text: string, cur: seq<string>, rest: seq<string>)
    requires at < |names| && cur == names[..at] && rest == names[at + 1..]
    ensures Collapse([], Redirected(names, at, text))
            == Collapse(if IsAbsolute(text) then [] else cur, Components(text) + Normals(rest))
  {
    var tail := Components(text) + Normals(rest);
    if IsAbsolute(text) {
      assert Redirected(names, at, text) == tail;
    } else {
      assert Redirected(names, at, text) == [RootDir] + (Normals(cur) + tail);
      assert ([RootDir] + (Normals(cur) + tail))[1..] == Normals(cur) + tail;
      CollapseConcat([], Normals(cur), tail);
      CollapseNormals([], cur);
      assert [] + cur == cur;
    }
  }

  /**
   On every file system whose link texts are harmless, and every harmless
   absolute target, `resolve_target` and the walk return the same path or the
   same error.
   */
  lemma ResolveIsWalk(fs: Tree, root: Path, target: string)
    requires WellFormed(fs) && IsDir(fs, root) && HarmlessLinks(fs)
    requires IsAbsolute(target) && Harmless(Components(target))
    ensures Resolve(fs, root, target) == Walk(fs, root, [], Components(target), 0)
  {
    var cs := Components(target);
    if !Tidy(cs) {
      ClimbsAtOnce(fs, root, [], cs, [], 0);
      assert cs + [] == cs;
      return;
    }
    ComponentsShape(target);
    assert root + [] == root;
    assert cs + Normals([]) == cs;
    HeadsAgree(fs, root, [], cs, [], 0);
    var names := Collapse([], cs);
    if names.Some? {
      ContinueIsWalk(fs, root, [], cs, names.value, 0);
    }
  }
}
