/** Which mount a path inside the root sees, once sandrun's plan was accepted. */
module MountViews {
  import opened Wrappers
  import opened Paths
  import opened Resolver
  import opened BindTargets
  import opened MountPlan
  import Sandrun
  import opened Sequences

  // -------------------------------------------------- lists of requests

  lemma {:induction false} CollectSplit<T>(a: seq<Result<seq<T>, PlanFault>>, b: seq<Result<seq<T>, PlanFault>>)
    requires Collect(a + b).Ok?
    ensures Collect(a).Ok? && Collect(b).Ok? && Collect(a + b).value == Collect(a).value + Collect(b).value
    decreases |b|
  {
    if b == [] {
      assert a + b == a;
    } else {
      assert (a + b)[..|a + b| - 1] == a + b[..|b| - 1];
      CollectSplit(a, b[..|b| - 1]);
    }
  }

  lemma EachSplit<T>(a: seq<Request>, b: seq<Request>, answer: Request -> Result<seq<T>, PlanFault>)
    requires AllOf(a + b, answer).Ok?
    ensures AllOf(a, answer).Ok? && AllOf(b, answer).Ok?
    ensures AllOf(a + b, answer).value == AllOf(a, answer).value + AllOf(b, answer).value
  {
    assert Each(a + b, answer) == Each(a, answer) + Each(b, answer);
    CollectSplit(Each(a, answer), Each(b, answer));
  }

  lemma EachSnoc<T>(a: seq<Request>, r: Request, answer: Request -> Result<seq<T>, PlanFault>)
    requires AllOf(a + [r], answer).Ok?
    ensures AllOf(a, answer).Ok? && answer(r).Ok?
    ensures AllOf(a + [r], answer).value == AllOf(a, answer).value + answer(r).value
  {
    var all := Each(a + [r], answer);
    assert all[..|a|] == Each(a, answer);
    assert all[|a|] == answer(r);
  }

  lemma SnocOf<T>(a: seq<Request>, r: Request, answer: Request -> Result<seq<T>, PlanFault>)
    requires AllOf(a, answer).Ok? && answer(r).Ok?
    ensures AllOf(a + [r], answer) == Ok(AllOf(a, answer).value + answer(r).value)
  {
    var all := Each(a + [r], answer);
    assert all[..|a|] == Each(a, answer);
    assert all[|a|] == answer(r);
  }

  /** What holds of every part of every answer holds of every part of them all. */
  lemma {:induction false} EachAll<T>(rs: seq<Request>, answer: Request -> Result<seq<T>, PlanFault>, good: T -> bool)
    requires AllOf(rs, answer).Ok?
    requires forall r :: r in rs && answer(r).Ok? ==> forall x :: x in answer(r).value ==> good(x)
    ensures forall x :: x in AllOf(rs, answer).value ==> good(x)
    decreases |rs|
  {
    if rs != [] {
      var init, last := rs[..|rs| - 1], rs[|rs| - 1];
      assert rs == init + [last];
      EachSnoc(init, last, answer);
      EachAll(init, answer, good);
    }
  }

  /** Mount `i` goes exactly where the check compared target `i`. */
  predicate Aligned(root: Path, ms: seq<Mount>, inners: seq<seq<string>>) {
    |ms| == |inners| && forall i :: 0 <= i < |ms| ==> ms[i].target == root + inners[i]
  }

  lemma AlignedConcat(root: Path, a: seq<Mount>, x: seq<seq<string>>, b: seq<Mount>, y: seq<seq<string>>)
    requires Aligned(root, a, x) && Aligned(root, b, y)
    ensures Aligned(root, a + b, x + y)
  {
  }

  lemma ResolvedInner(fs: Tree, root: Path, target: string)
    requires ResolveInner(fs, root, target).Ok?
    ensures var inner := ResolveInner(fs, root, target).value;
            inner != [] && Resolve(fs, root, target) == Ok(root + inner)
  {
    match Resolve(fs, root, target)
    case Err(_) =>
    case Ok(p) =>
      assert InnerPath(root, p).Ok?;
      assert p == root + p[|root|..];
  }

  lemma OperationAligned(fs: Tree, root: Path, r: Request, sources: Sources)
    requires Operation(fs, root, r, sources).Ok? && Covered(fs, root, r).Ok?
    ensures Aligned(root, Operation(fs, root, r, sources).value, Covered(fs, root, r).value)
  {
    ResolvedInner(fs, root, r.Target());
    var inner := ResolveInner(fs, root, r.Target()).value;
    assert root + inner + ["resolv.conf"] == root + (inner + ["resolv.conf"]);
    assert root + inner + ["hosts"] == root + (inner + ["hosts"]);
  }

  type Operator = Request -> Result<seq<Mount>, PlanFault>
  type Coverer = Request -> Result<seq<seq<string>>, PlanFault>

  /** Every request is mounted where it is compared. */
  ghost predicate Agree(root: Path, ops: Operator, covers: Coverer) {
    forall r :: ops(r).Ok? && covers(r).Ok? ==> Aligned(root, ops(r).value, covers(r).value)
  }

  lemma PlanAgrees(fs: Tree, root: Path, sources: Sources)
    ensures Agree(root, OperationIn(fs, root, sources), CoveredIn(fs, root))
  {
    forall r | OperationIn(fs, root, sources)(r).Ok? && CoveredIn(fs, root)(r).Ok?
      ensures Aligned(root, OperationIn(fs, root, sources)(r).value, CoveredIn(fs, root)(r).value)
    {
      OperationAligned(fs, root, r, sources);
    }
  }

  lemma {:induction false} EachAligned(root: Path, ops: Operator, covers: Coverer, rs: seq<Request>)
    requires Agree(root, ops, covers) && AllOf(rs, ops).Ok? && AllOf(rs, covers).Ok?
    ensures Aligned(root, AllOf(rs, ops).value, AllOf(rs, covers).value)
    decreases |rs|
  {
    if rs != [] {
      var init, last := rs[..|rs| - 1], rs[|rs| - 1];
      assert rs == init + [last];
      EachSnoc(init, last, ops);
      EachSnoc(init, last, covers);
      EachAligned(root, ops, covers, init);
      AlignedConcat(root, AllOf(init, ops).value, AllOf(init, covers).value, ops(last).value, covers(last).value);
    }
  }

  // --------------------------------------------------- creating targets

  lemma EnsureBindExtends(fs: Tree, root: Path, target: string, kind: Option<SourceKind>)
    requires WellFormed(fs) && IsDir(fs, root)
    ensures var made := EnsureBind(fs, root, target, kind);
            WellFormed(made.fs) && Extends(fs, made.fs) && IsDir(made.fs, root)
  {
    var names := Names(Components(target));
    ComponentsShape(target);
    NamesPlain(Components(target));
    if kind.Some? && names != [] {
      EnsureTargetResolves(fs, root, names[..|names| - 1], names[|names| - 1], kind.value);
    }
  }

  lemma {:induction false} EnsureBindsExtends(fs: Tree, root: Path, binds: seq<Sandrun.Bind>, sources: Sources)
    requires WellFormed(fs) && IsDir(fs, root)
    ensures var made := EnsureBinds(fs, root, binds, sources);
            WellFormed(made.fs) && Extends(fs, made.fs) && IsDir(made.fs, root)
    decreases |binds|
  {
    if binds != [] {
      var init, last := binds[..|binds| - 1], binds[|binds| - 1];
      EnsureBindsExtends(fs, root, init, sources);
      EnsureBindExtends(EnsureBinds(fs, root, init, sources).fs, root, last.target, KindOf(sources, last.source));
    }
  }

  /** Where the disk mounts went is still where their targets resolve at the end. */
  ghost predicate DisksResolve(fs: Tree, root: Path, disks: seq<string>, ms: seq<Mount>) {
    |ms| == |disks| && forall i :: 0 <= i < |disks| ==> Resolve(fs, root, disks[i]) == Ok(ms[i].target)
  }

  lemma {:induction false} DisksExtend(fs: Tree, root: Path, disks: seq<string>, source: string -> string)
    requires WellFormed(fs) && IsDir(fs, root)
    ensures var made := PreparedDisks(fs, root, disks, source);
            && WellFormed(made.fs) && Extends(fs, made.fs) && IsDir(made.fs, root)
            && (made.mounts.Ok? ==> DisksResolve(made.fs, root, disks, made.mounts.value))
    decreases |disks|
  {
    if disks != [] {
      hide EnsureBind, PreparedDisks, WellFormed, Extends, DisksResolve, Resolve;
      var init, last := disks[..|disks| - 1], disks[|disks| - 1];
      DisksExtend(fs, root, init, source);
      assert disks == init + [last];
      DisksExtendSnoc(fs, root, init, last, source);
    }
  }

  lemma DisksExtendSnoc(fs: Tree, root: Path, disks: seq<string>, target: string, source: string -> string)
    requires WellFormed(fs) && IsDir(fs, root)
    requires var before := PreparedDisks(fs, root, disks, source);
             && WellFormed(before.fs) && Extends(fs, before.fs) && IsDir(before.fs, root)
             && (before.mounts.Ok? ==> DisksResolve(before.fs, root, disks, before.mounts.value))
    ensures var made := PreparedDisks(fs, root, disks + [target], source);
            && WellFormed(made.fs) && Extends(fs, made.fs) && IsDir(made.fs, root)
            && (made.mounts.Ok? ==> DisksResolve(made.fs, root, disks + [target], made.mounts.value))
  {
    var before := PreparedDisks(fs, root, disks, source);
    assert (disks + [target])[..|disks|] == disks;
    if before.mounts.Ok? {
      EnsureBindExtends(before.fs, root, target, Some(DirSource));
      var made := EnsureBind(before.fs, root, target, Some(DirSource));
      var all := PreparedDisks(fs, root, disks + [target], source);
      if all.mounts.Ok? {
        DisksResolveSnoc(before.fs, made.fs, root, disks, before.mounts.value, target, all.mounts.value[|disks|]);
      }
    }
  }

  lemma DisksResolveSnoc(
      fs: Tree, bigger: Tree, root: Path, disks: seq<string>, ms: seq<Mount>, target: string, m: Mount)
    requires Extends(fs, bigger) && DisksResolve(fs, root, disks, ms)
    requires Resolve(bigger, root, target) == Ok(m.target)
    ensures DisksResolve(bigger, root, disks + [target], ms + [m])
  {
    forall i | 0 <= i < |disks|
      ensures Resolve(bigger, root, disks[i]) == Ok(ms[i].target)
    {
      ResolveMonotone(fs, bigger, root, disks[i]);
    }
  }

  lemma {:induction false} DisksAligned(
      fs: Tree, root: Path, disks: seq<string>, source: string -> string, ms: seq<Mount>)
    requires DisksResolve(fs, root, disks, ms) && AllCovered(fs, root, DiskBinds(disks, source)).Ok?
    ensures Aligned(root, ms, AllCovered(fs, root, DiskBinds(disks, source)).value)
    decreases |disks|
  {
    hide Resolve, Covered;
    if disks != [] {
      var init, last := disks[..|disks| - 1], disks[|disks| - 1];
      var r := AskBind(Sandrun.Bind(source(last), last, false), false);
      assert DiskBinds(disks, source) == DiskBinds(init, source) + [r];
      EachSnoc(DiskBinds(init, source), r, CoveredIn(fs, root));
      DisksAligned(fs, root, init, source, ms[..|ms| - 1]);
      OneCovered(fs, root, r, ms[|ms| - 1]);
      AlignedConcat(root, ms[..|ms| - 1], AllCovered(fs, root, DiskBinds(init, source)).value,
                    [ms[|ms| - 1]], Covered(fs, root, r).value);
      assert ms == ms[..|ms| - 1] + [ms[|ms| - 1]];
    }
  }

  lemma OneCovered(fs: Tree, root: Path, r: Request, m: Mount)
    requires !r.AskDns? && Covered(fs, root, r).Ok? && Resolve(fs, root, r.Target()) == Ok(m.target)
    ensures Aligned(root, [m], Covered(fs, root, r).value)
  {
    ResolvedInner(fs, root, r.Target());
  }

  // ------------------------------------------------------------ apartness

  predicate Inner(x: seq<string>) {
    x != [] && AllPlain(x)
  }

  lemma CoveredInside(fs: Tree, root: Path, r: Request)
    requires Covered(fs, root, r).Ok?
    ensures forall x :: x in Covered(fs, root, r).value ==> Inner(x)
  {
    ResolvedInner(fs, root, r.Target());
    ResolveConfined(fs, root, r.Target());
    var inner := ResolveInner(fs, root, r.Target()).value;
    assert (root + inner)[|root|..] == inner;
    DnsNamesPlain();
  }

  lemma DnsNamesPlain()
    ensures IsPlain("resolv.conf") && IsPlain("hosts")
  {
  }

  lemma AllCoveredInside(fs: Tree, root: Path, rs: seq<Request>)
    requires AllCovered(fs, root, rs).Ok?
    ensures forall x :: x in AllCovered(fs, root, rs).value ==> Inner(x)
  {
    forall r | CoveredIn(fs, root)(r).Ok?
      ensures forall x :: x in CoveredIn(fs, root)(r).value ==> Inner(x)
    {
      CoveredInside(fs, root, r);
    }
    EachAll(rs, CoveredIn(fs, root), Inner);
  }

  /** No path of the list lies at or below another. */
  ghost predicate Disjoint(inners: seq<seq<string>>) {
    forall i, j :: 0 <= i < |inners| && 0 <= j < |inners| && i != j ==> !(inners[i] <= inners[j])
  }

  lemma TextsOverlap(a: seq<string>, b: seq<string>)
    requires AllPlain(a) && AllPlain(b)
    ensures ComponentsOverlap(Text(a), Text(b)) <==> a <= b || b <= a
  {
    TextComponents(a);
    TextComponents(b);
    RootedPrefix(a, b);
    RootedPrefix(b, a);
  }

  /** The check passes exactly on disjoint targets. */
  lemma CheckMeaning(fs: Tree, root: Path, rs: seq<Request>)
    requires AllCovered(fs, root, rs).Ok?
    ensures CheckTargets(fs, root, rs).None? <==> Disjoint(AllCovered(fs, root, rs).value)
  {
    var inners := AllCovered(fs, root, rs).value;
    AllCoveredInside(fs, root, rs);
    TextsApart(inners);
    Sandrun.ClashFromMeaning(Texts(inners), 0);
  }

  lemma TextsApart(inners: seq<seq<string>>)
    requires forall x :: x in inners ==> Inner(x)
    ensures Disjoint(inners)
            <==> forall a, b :: 0 <= b < a < |Texts(inners)| && 0 <= a ==>
                   !ComponentsOverlap(Texts(inners)[a], Texts(inners)[b])
  {
    forall i, j | 0 <= j < i < |inners|
      ensures ComponentsOverlap(Texts(inners)[i], Texts(inners)[j])
              <==> inners[i] <= inners[j] || inners[j] <= inners[i]
    {
      assert inners[i] in inners && inners[j] in inners;
      TextsOverlap(inners[i], inners[j]);
    }
    if forall a, b :: 0 <= b < a < |Texts(inners)| && 0 <= a ==>
                   !ComponentsOverlap(Texts(inners)[a], Texts(inners)[b]) {
      forall i, j | 0 <= i < |inners| && 0 <= j < |inners| && i != j
        ensures !(inners[i] <= inners[j])
      {
        if i < j {
          assert !ComponentsOverlap(Texts(inners)[j], Texts(inners)[i]);
        } else {
          assert !ComponentsOverlap(Texts(inners)[i], Texts(inners)[j]);
        }
      }
    }
  }

  ghost predicate Apart(ms: seq<Mount>) {
    forall i, j :: 0 <= i < |ms| && 0 <= j < |ms| && i != j ==> !(ms[i].target <= ms[j].target)
  }

  lemma AlignedApart(root: Path, ms: seq<Mount>, inners: seq<seq<string>>)
    requires Aligned(root, ms, inners) && Disjoint(inners)
    ensures Apart(ms)
  {
    forall i, j | 0 <= i < |ms| && 0 <= j < |ms| && i != j
      ensures !(ms[i].target <= ms[j].target)
    {
      PrefixBelow(root, inners[i], inners[j]);
    }
  }

  lemma PrefixBelow(root: Path, a: seq<string>, b: seq<string>)
    ensures root + a <= root + b <==> a <= b
  {
    if root + a <= root + b {
      assert a == (root + a)[|root|..] && b == (root + b)[|root|..];
    }
  }

  /** Moving the last block in front of the one before it keeps a list apart. */
  lemma ApartSwap(a: seq<Mount>, b: seq<Mount>, c: seq<Mount>)
    requires Apart(a + b + c)
    ensures Apart(a + c + b)
  {
    var from, upto := a + b + c, a + c + b;
    forall i, j | 0 <= i < |upto| && 0 <= j < |upto| && i != j
      ensures !(upto[i].target <= upto[j].target)
    {
      var x, y := Moved(|a|, |b|, |c|, i), Moved(|a|, |b|, |c|, j);
      assert upto[i] == from[x] && upto[j] == from[y] && x != y;
    }
  }

  function Moved(a: nat, b: nat, c: nat, i: nat): nat
    requires i < a + b + c
  {
    if i < a then i else if i < a + c then i + b else i - c
  }

  // --------------------------------------------------------- whole plans

  predicate DnsFile(fs: Tree, root: Path, target: Path) {
    match Resolve(fs, root, "/etc")
    case Err(_) => false
    case Ok(etc) => target == etc + ["resolv.conf"] || target == etc + ["hosts"]
  }

  /** Nothing on the way to the target is a link, nor is the target, unless it is a DNS file to be replaced. */
  ghost predicate Solid(fs: Tree, root: Path, target: Path) {
    && root < target
    && (forall i :: |root| < i < |target| ==> target[..i] in fs && !fs[target[..i]].Link?)
    && ((target in fs && !fs[target].Link?) || DnsFile(fs, root, target))
  }

  lemma ResolvedSolid(fs: Tree, root: Path, target: string)
    requires ResolveInner(fs, root, target).Ok?
    ensures Solid(fs, root, root + ResolveInner(fs, root, target).value)
  {
    ResolvedInner(fs, root, target);
    ResolveConfined(fs, root, target);
    var p := root + ResolveInner(fs, root, target).value;
    assert p[..|p|] == p;
  }

  lemma CoveredSolid(fs: Tree, root: Path, r: Request)
    requires Covered(fs, root, r).Ok?
    ensures forall x :: x in Covered(fs, root, r).value ==> Solid(fs, root, root + x)
  {
    ResolvedSolid(fs, root, r.Target());
    ResolvedInner(fs, root, r.Target());
    if r.AskDns? {
      DnsSolid(fs, root, "resolv.conf");
      DnsSolid(fs, root, "hosts");
    }
  }

  lemma DnsSolid(fs: Tree, root: Path, name: string)
    requires ResolveInner(fs, root, "/etc").Ok? && (name == "resolv.conf" || name == "hosts")
    ensures Solid(fs, root, root + (ResolveInner(fs, root, "/etc").value + [name]))
  {
    ResolvedInner(fs, root, "/etc");
    ResolveConfined(fs, root, "/etc");
    var etc := root + ResolveInner(fs, root, "/etc").value;
    var target := root + (ResolveInner(fs, root, "/etc").value + [name]);
    assert target == etc + [name];
    forall i | |root| < i < |target|
      ensures target[..i] in fs && !fs[target[..i]].Link?
    {
      assert target[..i] == etc[..i];
    }
  }

  lemma AllCoveredSolid(fs: Tree, root: Path, rs: seq<Request>)
    requires AllCovered(fs, root, rs).Ok?
    ensures forall x :: x in AllCovered(fs, root, rs).value ==> Solid(fs, root, root + x)
  {
    var good: seq<string> -> bool := x => Solid(fs, root, root + x);
    forall r | CoveredIn(fs, root)(r).Ok?
      ensures forall x :: x in CoveredIn(fs, root)(r).value ==> good(x)
    {
      CoveredSolid(fs, root, r);
    }
    EachAll(rs, CoveredIn(fs, root), good);
  }

  /** A plan in parts: standard mounts around the cgroup bind, then the user's. */
  datatype Parts = Parts(before: seq<Mount>, cgroup: seq<Mount>, after: seq<Mount>, user: seq<Mount>)
  {
    function All(): seq<Mount> {
      before + cgroup + after + user
    }

    /** Everything but the cgroup bind. */
    function Checked(): seq<Mount> {
      before + after + user
    }
  }

  /** Operations asked for in five runs, of which all but the second are compared. */
  lemma StandardParts(root: Path, ops: Operator, covers: Coverer, first: seq<Request>, middle: seq<Request>,
                      second: seq<Request>, rest: seq<Request>)
    returns (before: seq<Mount>, cgroup: seq<Mount>, after: seq<Mount>)
    requires Agree(root, ops, covers)
    requires AllOf(first + middle + second + rest, ops).Ok? && AllOf(first + second, covers).Ok?
    ensures AllOf(first, ops) == Ok(before) && AllOf(middle, ops) == Ok(cgroup) && AllOf(second, ops) == Ok(after)
    ensures AllOf(rest, ops).Ok?
    ensures AllOf(first + middle + second + rest, ops).value == before + cgroup + after + AllOf(rest, ops).value
    ensures Aligned(root, before + after, AllOf(first + second, covers).value)
  {
    EachSplit(first + middle + second, rest, ops);
    EachSplit(first + middle, second, ops);
    EachSplit(first, middle, ops);
    before := AllOf(first, ops).value;
    cgroup := AllOf(middle, ops).value;
    after := AllOf(second, ops).value;
    EachSplit(first, second, covers);
    EachAligned(root, ops, covers, first);
    EachAligned(root, ops, covers, second);
    AlignedConcat(root, before, AllOf(first, covers).value, after, AllOf(second, covers).value);
  }

  lemma OneBind(fs: Tree, root: Path, b: Sandrun.Bind, sources: Sources, ms: seq<Mount>)
    requires Operations(fs, root, [AskBind(b, true)], sources) == Ok(ms)
    ensures |ms| == 1 && Resolve(fs, root, b.target) == Ok(ms[0].target)
  {
    var ask := AskBind(b, true);
    assert [] + [ask] == [ask];
    EachSnoc([], ask, OperationIn(fs, root, sources));
    assert Each([], OperationIn(fs, root, sources)) == [];
    OneBindTarget(fs, root, b, KindOf(sources, b.source));
  }

  lemma OneBindTarget(fs: Tree, root: Path, b: Sandrun.Bind, kind: Option<SourceKind>)
    requires PreparedBind(fs, root, b, true, kind).Ok?
    ensures Resolve(fs, root, b.target) == Ok(PreparedBind(fs, root, b, true, kind).value.target)
  {
  }

  function UserRequests(c: Sandrun.Config): seq<Request> {
    Binds(c.binds) + Tmpfses(c.tmpfs)
  }

  /** The user's mounts in the order they are applied, against the order they were compared in. */
  ghost predicate MatchesCompared(
      root: Path, ops: Operator, covers: Coverer, compared: seq<Request>, rest: seq<Request>, disks: seq<Mount>)
  {
    AllOf(compared, covers).Ok? && AllOf(rest, ops).Ok? ==>
      Aligned(root, disks + AllOf(rest, ops).value, AllOf(compared, covers).value)
  }

  lemma UserParts(fs: Tree, root: Path, c: Sandrun.Config, sources: Sources, source: string -> string,
                  disks: seq<Mount>)
    requires DisksResolve(fs, root, c.diskMounts, disks)
    ensures MatchesCompared(root, OperationIn(fs, root, sources), CoveredIn(fs, root),
                            DiskBinds(c.diskMounts, source) + UserRequests(c), UserRequests(c), disks)
  {
    var first, second := DiskBinds(c.diskMounts, source), UserRequests(c);
    var ops, covers := OperationIn(fs, root, sources), CoveredIn(fs, root);
    if AllOf(first + second, covers).Ok? && AllOf(second, ops).Ok? {
      EachSplit(first, second, covers);
      DisksAligned(fs, root, c.diskMounts, source, disks);
      PlanAgrees(fs, root, sources);
      EachAligned(root, ops, covers, second);
      AlignedConcat(root, disks, AllOf(first, covers).value, AllOf(second, ops).value, AllOf(second, covers).value);
    }
  }

  /** The mounts go to the compared targets, to all of them and nowhere else. */
  ghost predicate GoTo(root: Path, ms: seq<Mount>, inners: seq<seq<string>>) {
    && (forall m :: m in ms ==> exists x :: x in inners && m.target == root + x)
    && (forall x :: x in inners ==> exists m :: m in ms && m.target == root + x)
  }

  /** The mounts of a plan from its parts, once its file system is settled. */
  lemma SettledParts(
      root: Path, ops: Operator, covers: Coverer, compared: seq<Request>, rest: seq<Request>, disks: seq<Mount>,
      first: seq<Request>, middle: seq<Request>, second: seq<Request>)
    returns (parts: Parts)
    requires Agree(root, ops, covers) && MatchesCompared(root, ops, covers, compared, rest, disks)
    requires AllOf(first + middle + second + rest, ops).Ok? && AllOf(first + second + compared, covers).Ok?
    requires Disjoint(AllOf(first + second + compared, covers).value)
    ensures AllOf(first + middle + second + rest, ops).value + disks == parts.All()
    ensures AllOf(first, ops) == Ok(parts.before) && AllOf(middle, ops) == Ok(parts.cgroup)
    ensures AllOf(second, ops) == Ok(parts.after)
    ensures AllOf(rest, ops).Ok? && parts.user == AllOf(rest, ops).value + disks
    ensures Apart(parts.Checked()) && GoTo(root, parts.Checked(), AllOf(first + second + compared, covers).value)
  {
    EachSplit(first + second, compared, covers);
    var before, cgroup, after := StandardParts(root, ops, covers, first, middle, second, rest);
    var operations := AllOf(rest, ops).value;
    AlignedConcat(root, before + after, AllOf(first + second, covers).value,
                  disks + operations, AllOf(compared, covers).value);
    CheckedTargets(root, before + after, operations, disks, AllOf(first + second + compared, covers).value);
    parts := Parts(before, cgroup, after, operations + disks);
    Regrouped(before + cgroup + after, operations, disks);
    Regrouped(before + after, operations, disks);
  }

  /** What an accepted plan settled: its file system, its disk mounts and the two passed checks. */
  lemma PlanSettles(fs: Tree, root: Path, c: Sandrun.Config, sources: Sources, source: string -> string)
    returns (disks: seq<Mount>)
    requires WellFormed(fs) && IsDir(fs, root)
    requires Planned(fs, root, c, sources, source).mounts.Ok?
    ensures var plan := Planned(fs, root, c, sources, source);
            && Extends(fs, plan.fs)
            && DisksResolve(plan.fs, root, c.diskMounts, disks)
            && CheckTargets(plan.fs, root, Compared(c, source)).None?
            && Operations(plan.fs, root, Requested(c), sources).Ok?
            && plan.mounts.value == Operations(plan.fs, root, Requested(c), sources).value + disks
            && PreparedDisks(Targeted(fs, root, c, sources).fs, root, c.diskMounts, source).mounts == Ok(disks)
  {
    hide EnsureBinds, EnsureBind, CheckTargets, CheckStart, Operations, PreparedDisks;
    hide Compared, Requested, WellFormed, DisksResolve;
    var targeted := Targeted(fs, root, c, sources);
    var made := PreparedDisks(targeted.fs, root, c.diskMounts, source);
    var bound := EnsureBinds(fs, root, c.binds, sources);
    EnsureBindsExtends(fs, root, c.binds, sources);
    EnsureBindExtends(bound.fs, root, CGROUP.target, KindOf(sources, CGROUP.source));
    DisksExtend(targeted.fs, root, c.diskMounts, source);
    disks := made.mounts.value;
  }

  function BeforeCgroup(c: Sandrun.Config): seq<Request> {
    if c.standardMounts then BEFORE_CGROUP else []
  }

  function CgroupItself(c: Sandrun.Config): seq<Request> {
    if c.standardMounts then [AskBind(CGROUP, true)] else []
  }

  function AfterCgroup(c: Sandrun.Config): seq<Request> {
    if c.standardMounts then AFTER_CGROUP else []
  }

  /** The parts of an accepted plan, each fixed by the requests it answers. */
  ghost predicate PartsOf(
      fs: Tree, root: Path, c: Sandrun.Config, sources: Sources, source: string -> string, parts: Parts)
  {
    var plan := Planned(fs, root, c, sources, source);
    var binds := Operations(plan.fs, root, UserRequests(c), sources);
    var disks := PreparedDisks(Targeted(fs, root, c, sources).fs, root, c.diskMounts, source).mounts;
    && plan.mounts == Ok(parts.All())
    && Operations(plan.fs, root, BeforeCgroup(c), sources) == Ok(parts.before)
    && Operations(plan.fs, root, CgroupItself(c), sources) == Ok(parts.cgroup)
    && Operations(plan.fs, root, AfterCgroup(c), sources) == Ok(parts.after)
    && binds.Ok? && disks.Ok? && parts.user == binds.value + disks.value
  }

  /**
   Whenever a plan is accepted, its mounts other than the cgroup bind have
   proper, link-free targets of which none is at or below another; what was
   in the file system before is unchanged.
   */
  lemma MountsNeverAlias(fs: Tree, root: Path, c: Sandrun.Config, sources: Sources, source: string -> string)
    returns (parts: Parts)
    requires WellFormed(fs) && IsDir(fs, root)
    requires Planned(fs, root, c, sources, source).mounts.Ok?
    ensures var plan := Planned(fs, root, c, sources, source);
            && PartsOf(fs, root, c, sources, source, parts)
            && Extends(fs, plan.fs)
            && Apart(parts.Checked())
            && (forall m :: m in parts.Checked() ==> Solid(plan.fs, root, m.target))
            && AllCovered(plan.fs, root, Compared(c, source)).Ok?
            && GoTo(root, parts.Checked(), AllCovered(plan.fs, root, Compared(c, source)).value)
            && if c.standardMounts then
                 |parts.cgroup| == 1 && Resolve(plan.fs, root, CGROUP.target) == Ok(parts.cgroup[0].target)
               else parts.before == parts.cgroup == parts.after == []
  {
    hide Planned, PreparedDisks, Targeted, Disjoint, Apart, GoTo, WellFormed, Extends, Resolve, DisksResolve;
    var settled := Planned(fs, root, c, sources, source).fs;
    var disks := PlanSettles(fs, root, c, sources, source);
    var first, middle, second := RequestParts(c, source);
    var compared := DiskBinds(c.diskMounts, source) + UserRequests(c);
    var ops, covers := OperationIn(settled, root, sources), CoveredIn(settled, root);
    UserParts(settled, root, c, sources, source, disks);
    PlanAgrees(settled, root, sources);
    CheckMeaning(settled, root, first + second + compared);
    parts := SettledParts(root, ops, covers, compared, UserRequests(c), disks, first, middle, second);
    AllCoveredSolid(settled, root, first + second + compared);
    if c.standardMounts {
      OneBind(settled, root, CGROUP, sources, parts.cgroup);
    } else {
      assert Each([], ops) == [];
    }
  }

  lemma RequestParts(c: Sandrun.Config, source: string -> string)
    returns (first: seq<Request>, middle: seq<Request>, second: seq<Request>)
    ensures Requested(c) == first + middle + second + UserRequests(c)
    ensures Compared(c, source) == first + second + (DiskBinds(c.diskMounts, source) + UserRequests(c))
    ensures first == BeforeCgroup(c) && middle == CgroupItself(c) && second == AfterCgroup(c)
  {
    first, middle, second := BeforeCgroup(c), CgroupItself(c), AfterCgroup(c);
    var disks := DiskBinds(c.diskMounts, source);
    Regrouped(first + middle + second, Binds(c.binds), Tmpfses(c.tmpfs));
    Regrouped(first + second + disks, Binds(c.binds), Tmpfses(c.tmpfs));
    Regrouped(first + second, disks, UserRequests(c));
  }

  lemma CheckedTargets(
      root: Path, std: seq<Mount>, operations: seq<Mount>, disks: seq<Mount>, inners: seq<seq<string>>)
    requires Aligned(root, std + (disks + operations), inners) && Disjoint(inners)
    ensures Apart(std + operations + disks) && GoTo(root, std + operations + disks, inners)
  {
    hide Disjoint, Apart, GoTo;
    var compared := std + disks + operations;
    Regrouped(std, disks, operations);
    AlignedApart(root, compared, inners);
    ApartSwap(std, disks, operations);
    AlignedGoTo(root, compared, inners);
    SwapGoTo(root, std, disks, operations, inners);
  }

  lemma AlignedGoTo(root: Path, ms: seq<Mount>, inners: seq<seq<string>>)
    requires Aligned(root, ms, inners)
    ensures GoTo(root, ms, inners)
  {
    forall m | m in ms
      ensures exists x :: x in inners && m.target == root + x
    {
      var i :| 0 <= i < |ms| && ms[i] == m;
      assert inners[i] in inners;
    }
    forall x | x in inners
      ensures exists m :: m in ms && m.target == root + x
    {
      var i :| 0 <= i < |inners| && inners[i] == x;
      assert ms[i] in ms;
    }
  }

  lemma SwapGoTo(root: Path, a: seq<Mount>, b: seq<Mount>, c: seq<Mount>, inners: seq<seq<string>>)
    requires GoTo(root, a + b + c, inners)
    ensures GoTo(root, a + c + b, inners)
  {
    assert forall m :: m in a + c + b <==> m in a + b + c;
  }

  // ----------------------------------------------------------------- views

  predicate Covers(m: Mount, p: Path) {
    m.target <= p
  }

  /** The mount a path is seen through: the last applied one that covers it. */
  function View(ms: seq<Mount>, p: Path): Option<Mount> {
    if ms == [] then None
    else if Covers(ms[|ms| - 1], p) then Some(ms[|ms| - 1])
    else View(ms[..|ms| - 1], p)
  }

  lemma {:induction false} ViewMeaning(ms: seq<Mount>, p: Path)
    ensures View(ms, p).None? <==> forall m :: m in ms ==> !Covers(m, p)
    ensures View(ms, p).Some? ==> View(ms, p).value in ms && Covers(View(ms, p).value, p)
    decreases |ms|
  {
    if ms != [] {
      ViewMeaning(ms[..|ms| - 1], p);
      assert ms == ms[..|ms| - 1] + [ms[|ms| - 1]];
    }
  }

  lemma {:induction false} ViewConcat(a: seq<Mount>, b: seq<Mount>, p: Path)
    ensures View(a + b, p) == if View(b, p).Some? then View(b, p) else View(a, p)
    decreases |b|
  {
    if b == [] {
      assert a + b == a;
    } else {
      assert (a + b)[..|a + b| - 1] == a + b[..|b| - 1];
      ViewConcat(a, b[..|b| - 1], p);
    }
  }

  /** At most one of several mounts that are apart covers a path. */
  lemma CoveredOnce(ms: seq<Mount>, p: Path, i: nat, j: nat)
    requires Apart(ms) && i < |ms| && j < |ms| && Covers(ms[i], p) && Covers(ms[j], p)
    ensures i == j
  {
    PrefixesComparable(ms[i].target, ms[j].target, p);
  }

  /** A mount that covers a path and shares it with no other mount is what the path sees. */
  lemma OnlyView(ms: seq<Mount>, m: Mount, p: Path)
    requires m in ms && Covers(m, p) && forall n :: n in ms && Covers(n, p) ==> n == m
    ensures View(ms, p) == Some(m)
  {
    ViewMeaning(ms, p);
  }

  lemma PrefixesComparable(a: Path, b: Path, p: Path)
    requires a <= p && b <= p
    ensures a <= b || b <= a
  {
    assert a == p[..|a|] && b == p[..|b|];
  }

  /** Mounting the same disjoint targets in any order, after the same others, gives the same view. */
  lemma ReorderedView(first: seq<Mount>, ms: seq<Mount>, others: seq<Mount>, p: Path)
    requires Apart(ms) && multiset(ms) == multiset(others)
    ensures View(first + ms, p) == View(first + others, p)
  {
    ViewConcat(first, ms, p);
    ViewConcat(first, others, p);
    ViewMeaning(ms, p);
    ViewMeaning(others, p);
    assert forall m :: m in ms <==> m in multiset(ms);
    assert forall m :: m in others <==> m in multiset(others);
    if View(ms, p).Some? {
      var m, n := View(ms, p).value, View(others, p).value;
      assert n in ms;
      var i :| 0 <= i < |ms| && ms[i] == m;
      var j :| 0 <= j < |ms| && ms[j] == n;
      CoveredOnce(ms, p, i, j);
    }
  }

  /**
   Hence for the parts of an accepted plan: every path is covered by at most
   one mount besides the cgroup bind, and the user's mounts could be applied
   in any order.
   */
  lemma AcceptedPlanView(
      fs: Tree, root: Path, c: Sandrun.Config, sources: Sources, source: string -> string, others: seq<Mount>, p: Path)
    returns (parts: Parts)
    requires WellFormed(fs) && IsDir(fs, root)
    requires Planned(fs, root, c, sources, source).mounts.Ok?
    ensures PartsOf(fs, root, c, sources, source, parts)
    ensures forall i, j :: 0 <= i < |parts.Checked()| && 0 <= j < |parts.Checked()| && i != j ==>
              !(Covers(parts.Checked()[i], p) && Covers(parts.Checked()[j], p))
    ensures multiset(others) == multiset(parts.user) ==>
              View(parts.All(), p) == View(parts.before + parts.cgroup + parts.after + others, p)
  {
    hide PartsOf;
    parts := MountsNeverAlias(fs, root, c, sources, source);
    forall i, j | 0 <= i < |parts.Checked()| && 0 <= j < |parts.Checked()| && i != j
      ensures !(Covers(parts.Checked()[i], p) && Covers(parts.Checked()[j], p))
    {
      if Covers(parts.Checked()[i], p) && Covers(parts.Checked()[j], p) {
        CoveredOnce(parts.Checked(), p, i, j);
      }
    }
    if multiset(others) == multiset(parts.user) {
      LastApart(parts.before + parts.after, parts.user);
      ReorderedView(parts.before + parts.cgroup + parts.after, parts.user, others, p);
    }
  }

  lemma LastApart(a: seq<Mount>, b: seq<Mount>)
    requires Apart(a + b)
    ensures Apart(b)
  {
    forall i, j | 0 <= i < |b| && 0 <= j < |b| && i != j
      ensures !(b[i].target <= b[j].target)
    {
      assert (a + b)[|a| + i] == b[i] && (a + b)[|a| + j] == b[j];
    }
  }
}
