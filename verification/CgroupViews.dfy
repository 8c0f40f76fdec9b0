/** What paths see around the cgroup bind, and exactly when it hides nothing and is hidden by nothing. */
module CgroupViews {
  import opened Wrappers
  import opened Paths
  import opened Resolver
  import opened BindTargets
  import opened MountPlan
  import opened MountViews
  import opened CgroupNesting
  import opened Sequences
  import Sandrun

  /**
   The intended picture: paths under the cgroup bind see it, every other
   mount but `/sys` is seen wherever it reaches, and `/sys` itself is seen.
   */
  ghost predicate InSight(parts: Parts, cgroup: Mount, sys: Mount) {
    && (forall p :: Covers(cgroup, p) ==> View(parts.All(), p) == Some(cgroup))
    && (forall m, p :: m in parts.Checked() && m != sys && Covers(m, p) ==> View(parts.All(), p) == Some(m))
    && View(parts.All(), sys.target) == Some(sys)
  }

  ghost predicate PlanInSight(fs: Tree, root: Path, c: Sandrun.Config, sources: Sources, source: string -> string) {
    exists parts ::
      && PartsOf(fs, root, c, sources, source, parts) && |parts.cgroup| == 1
      && InSight(parts, parts.cgroup[0], SysMount(Planned(fs, root, c, sources, source).fs, root))
  }

  /** It is so whatever further tmpfs mounts the planner accepts. */
  ghost predicate AlwaysInSight(fs: Tree, root: Path, c: Sandrun.Config, sources: Sources, source: string -> string) {
    forall more :: Planned(fs, root, WithTmpfs(c, more), sources, source).mounts.Ok? ==>
      PlanInSight(fs, root, WithTmpfs(c, more), sources, source)
  }

  /** The cgroup bind meets no mount except by lying strictly inside `/sys`. */
  ghost predicate Clear(ms: seq<Mount>, cgroup: Mount, sys: Mount) {
    forall m :: m in ms && (m.target <= cgroup.target || cgroup.target <= m.target) ==>
      m == sys && sys.target < cgroup.target
  }

  lemma ClearIsInSight(parts: Parts, cgroup: Mount, sys: Mount)
    requires Apart(parts.Checked()) && Clear(parts.Checked(), cgroup, sys)
    requires parts.cgroup == [cgroup] && sys.target < cgroup.target
    requires parts.before != [] && parts.before[|parts.before| - 1] == sys
    ensures InSight(parts, cgroup, sys)
  {
    hide Clear;
    var all := parts.All();
    assert forall n :: n in all <==> n in parts.Checked() || n == cgroup;
    assert sys in parts.Checked();
    forall p | Covers(cgroup, p)
      ensures View(all, p) == Some(cgroup)
    {
      CgroupOnTop(parts, cgroup, sys, p);
    }
    forall m, p | m in parts.Checked() && (m != sys || p == sys.target) && Covers(m, p)
      ensures View(all, p) == Some(m)
    {
      forall n | n in all && Covers(n, p)
        ensures n == m
      {
        if n in parts.Checked() {
          SameCover(parts.Checked(), m, n, p);
        } else {
          PrefixesComparable(m.target, cgroup.target, p);
          MeetsSys(parts.Checked(), cgroup, sys, m);
        }
      }
      OnlyView(all, m, p);
    }
  }

  lemma MeetsSys(ms: seq<Mount>, cgroup: Mount, sys: Mount, m: Mount)
    requires Clear(ms, cgroup, sys) && m in ms && (m.target <= cgroup.target || cgroup.target <= m.target)
    ensures m == sys && sys.target < cgroup.target
  {
  }

  lemma SameCover(ms: seq<Mount>, m: Mount, n: Mount, p: Path)
    requires Apart(ms) && m in ms && n in ms && Covers(m, p) && Covers(n, p)
    ensures m == n
  {
    var i :| 0 <= i < |ms| && ms[i] == m;
    var j :| 0 <= j < |ms| && ms[j] == n;
    CoveredOnce(ms, p, i, j);
  }

  lemma CgroupOnTop(parts: Parts, cgroup: Mount, sys: Mount, p: Path)
    requires Apart(parts.Checked()) && Clear(parts.Checked(), cgroup, sys) && Covers(cgroup, p)
    requires parts.cgroup == [cgroup]
    requires parts.before != [] && parts.before[|parts.before| - 1] == sys
    ensures View(parts.All(), p) == Some(cgroup)
  {
    var rest := parts.after + parts.user;
    Regrouped(parts.before, parts.after, parts.user);
    Regrouped(parts.before + parts.cgroup, parts.after, parts.user);
    OnlyOnce(parts.before, rest, sys);
    ViewMeaning(rest, p);
    if View(rest, p).Some? {
      var n := View(rest, p).value;
      PrefixesComparable(n.target, cgroup.target, p);
      MeetsSys(parts.Checked(), cgroup, sys, n);
    }
    ViewConcat(parts.before + parts.cgroup, rest, p);
    ViewConcat(parts.before, parts.cgroup, p);
  }

  /** Compared targets and mounts tell the same about the cgroup bind. */
  lemma NestedIsClear(root: Path, ms: seq<Mount>, targets: seq<seq<string>>, cgroup: Mount, sys: Mount,
                      inner: seq<string>, sysInner: seq<string>)
    requires Apart(ms) && GoTo(root, ms, targets) && sys in ms
    requires cgroup.target == root + inner && sys.target == root + sysInner
    ensures Nested(targets, sysInner, inner) <==> Clear(ms, cgroup, sys)
  {
    hide Apart, GoTo;
    if Nested(targets, sysInner, inner) {
      hide Nested;
      forall m | m in ms && (m.target <= cgroup.target || cgroup.target <= m.target)
        ensures m == sys && sys.target < cgroup.target
      {
        NestedMount(root, ms, targets, cgroup, sys, inner, sysInner, m);
      }
    }
    if Clear(ms, cgroup, sys) {
      hide Clear;
      forall t | t in targets && (t <= inner || inner <= t)
        ensures t == sysInner && sysInner < inner
      {
        ClearTarget(root, ms, targets, cgroup, sys, inner, sysInner, t);
      }
    }
  }

  lemma NestedMount(root: Path, ms: seq<Mount>, targets: seq<seq<string>>, cgroup: Mount, sys: Mount,
                    inner: seq<string>, sysInner: seq<string>, m: Mount)
    requires Apart(ms) && GoTo(root, ms, targets) && sys in ms
    requires cgroup.target == root + inner && sys.target == root + sysInner
    requires Nested(targets, sysInner, inner) && m in ms
    requires m.target <= cgroup.target || cgroup.target <= m.target
    ensures m == sys && sys.target < cgroup.target
  {
    hide Apart;
    var x :| x in targets && m.target == root + x;
    PrefixBelow(root, x, inner);
    PrefixBelow(root, inner, x);
    PrefixBelow(root, sysInner, inner);
    SameCover(ms, m, sys, m.target);
  }

  lemma ClearTarget(root: Path, ms: seq<Mount>, targets: seq<seq<string>>, cgroup: Mount, sys: Mount,
                    inner: seq<string>, sysInner: seq<string>, t: seq<string>)
    requires GoTo(root, ms, targets) && Clear(ms, cgroup, sys)
    requires cgroup.target == root + inner && sys.target == root + sysInner
    requires t in targets && (t <= inner || inner <= t)
    ensures t == sysInner && sysInner < inner
  {
    hide Clear;
    var m :| m in ms && m.target == root + t;
    PrefixBelow(root, t, inner);
    PrefixBelow(root, inner, t);
    MeetsSys(ms, cgroup, sys, m);
    assert t == (root + t)[|root|..] == (root + sysInner)[|root|..] == sysInner;
  }

  /** The pieces of an accepted plan with standard mounts that the picture is about. */
  lemma PlanPieces(fs: Tree, root: Path, c: Sandrun.Config, sources: Sources, source: string -> string)
    returns (parts: Parts, targets: seq<seq<string>>)
    requires WellFormed(fs) && IsDir(fs, root) && c.standardMounts
    requires Planned(fs, root, c, sources, source).mounts.Ok?
    ensures var q := Planned(fs, root, c, sources, source).fs;
            && PartsOf(fs, root, c, sources, source, parts)
            && |parts.cgroup| == 1 && parts.cgroup[0].target == root + CgroupIn(q, root)
            && parts.before != [] && parts.before[|parts.before| - 1] == SysMount(q, root)
            && Apart(parts.Checked())
            && AllCovered(q, root, Compared(c, source)) == Ok(targets) && GoTo(root, parts.Checked(), targets)
            && (Nested(targets, SysIn(q, root), CgroupIn(q, root))
                <==> Clear(parts.Checked(), parts.cgroup[0], SysMount(q, root)))
  {
    hide Planned, Resolve, SysIn, CgroupIn, WellFormed, Extends, Solid, Operation, Apart, GoTo, Disjoint, Compared,
         Nested, Clear;
    var q := Planned(fs, root, c, sources, source).fs;
    parts := MountsNeverAlias(fs, root, c, sources, source);
    targets := AllCovered(q, root, Compared(c, source)).value;
    CgroupResolves(fs, root, c, sources, source);
    SysResolves(fs, root, c, sources, source);
    SysIsMounted(q, root, sources, parts.before);
    assert SysMount(q, root) in parts.before && SysMount(q, root) in parts.Checked();
    NestedIsClear(root, parts.Checked(), targets, parts.cgroup[0], SysMount(q, root),
                  CgroupIn(q, root), SysIn(q, root));
  }

  /** Strictly inside `/sys`, everything is in sight. */
  lemma InsideSysIsInSight(fs: Tree, root: Path, c: Sandrun.Config, sources: Sources, source: string -> string)
    requires WellFormed(fs) && IsDir(fs, root) && c.standardMounts
    requires var plan := Planned(fs, root, c, sources, source);
             plan.mounts.Ok? && SysIn(plan.fs, root) < CgroupIn(plan.fs, root)
    ensures PlanInSight(fs, root, c, sources, source)
  {
    hide Planned, SysIn, CgroupIn, WellFormed, Apart, GoTo, Nested, Clear, InSight, PartsOf, Compared;
    var q := Planned(fs, root, c, sources, source).fs;
    var parts, targets := PlanPieces(fs, root, c, sources, source);
    InsideSysIsNested(fs, root, c, sources, source);
    PrefixBelow(root, SysIn(q, root), CgroupIn(q, root));
    ClearIsInSight(parts, parts.cgroup[0], SysMount(q, root));
  }

  // ---------------------------------------- the bind is unlike any other

  const CGROUP_BOUND := BoundTo(CGROUP.source, false, true)

  /** Only the cgroup bind itself asks for the host's cgroup hierarchy with all that is mounted in it. */
  predicate Ordinary(r: Request) {
    r.AskBind? && r.recursive ==> r.bind.source != CGROUP.source
  }

  predicate Unlike(ms: seq<Mount>) {
    forall m :: m in ms ==> m.content != CGROUP_BOUND
  }

  lemma OrdinaryUnlike(fs: Tree, root: Path, r: Request, sources: Sources)
    requires Ordinary(r) && Operation(fs, root, r, sources).Ok?
    ensures Unlike(Operation(fs, root, r, sources).value)
  {
    hide Resolve;
  }

  lemma AllOrdinaryUnlike(fs: Tree, root: Path, rs: seq<Request>, sources: Sources)
    requires Operations(fs, root, rs, sources).Ok? && forall r :: r in rs ==> Ordinary(r)
    ensures Unlike(Operations(fs, root, rs, sources).value)
  {
    hide Operation, Ordinary;
    forall r | r in rs && OperationIn(fs, root, sources)(r).Ok?
      ensures forall m :: m in OperationIn(fs, root, sources)(r).value ==> m.content != CGROUP_BOUND
    {
      OrdinaryUnlike(fs, root, r, sources);
    }
    EachAll(rs, OperationIn(fs, root, sources), (m: Mount) => m.content != CGROUP_BOUND);
  }

  lemma {:induction false} DisksUnlike(fs: Tree, root: Path, disks: seq<string>, source: string -> string)
    requires PreparedDisks(fs, root, disks, source).mounts.Ok?
    ensures Unlike(PreparedDisks(fs, root, disks, source).mounts.value)
    decreases |disks|
  {
    hide EnsureBind, Resolve;
    if disks != [] {
      DisksUnlike(fs, root, disks[..|disks| - 1], source);
    }
  }

  lemma StandardOrdinary()
    ensures forall r :: r in BEFORE_CGROUP || r in AFTER_CGROUP ==> Ordinary(r)
  {
    assert |"/dev"| == 4 && |SYS.source| == 4 && |CGROUP.source| == 14;
  }

  lemma CheckedUnlike(fs: Tree, root: Path, c: Sandrun.Config, sources: Sources, source: string -> string, parts: Parts)
    requires PartsOf(fs, root, c, sources, source, parts)
    ensures Unlike(parts.Checked())
  {
    hide Planned, Ordinary, Targeted, PreparedDisks, Operations;
    var q := Planned(fs, root, c, sources, source).fs;
    StandardOrdinary();
    UserOrdinary(c);
    AllOrdinaryUnlike(q, root, BeforeCgroup(c), sources);
    AllOrdinaryUnlike(q, root, AfterCgroup(c), sources);
    AllOrdinaryUnlike(q, root, UserRequests(c), sources);
    DisksUnlike(Targeted(fs, root, c, sources).fs, root, c.diskMounts, source);
  }

  lemma UserOrdinary(c: Sandrun.Config)
    ensures forall r :: r in UserRequests(c) ==> Ordinary(r)
  {
  }

  lemma CgroupIsBound(fs: Tree, root: Path, sources: Sources, cgroup: seq<Mount>)
    requires Operations(fs, root, [AskBind(CGROUP, true)], sources) == Ok(cgroup) && |cgroup| == 1
    requires KindOf(sources, CGROUP.source) == Some(DirSource)
    ensures cgroup[0].content == CGROUP_BOUND
  {
    hide Resolve;
    var ask := AskBind(CGROUP, true);
    assert [] + [ask] == [ask];
    EachSnoc([], ask, OperationIn(fs, root, sources));
    assert Each([], OperationIn(fs, root, sources)) == [];
  }

  // -------------------------------------------------------- main theorem

  /** If everything is in sight, no mount but `/sys` meets the bind, and that one is strictly above it. */
  lemma InSightIsClear(parts: Parts, cgroup: Mount, sys: Mount, m: Mount)
    requires InSight(parts, cgroup, sys) && parts.cgroup == [cgroup]
    requires cgroup.content == CGROUP_BOUND && Unlike(parts.Checked()) && m in parts.Checked()
    requires m.target <= cgroup.target || cgroup.target <= m.target
    requires cgroup.target <= sys.target ==> View(parts.All(), sys.target) != Some(sys)
    ensures m == sys && sys.target < cgroup.target
  {
    var p := if m.target <= cgroup.target then cgroup.target else m.target;
    assert Covers(cgroup, p) && Covers(m, p);
    assert View(parts.All(), p) == Some(cgroup);
    assert m != cgroup;
  }

  lemma InSightIsNested(fs: Tree, root: Path, c: Sandrun.Config, sources: Sources, source: string -> string)
    requires WellFormed(fs) && IsDir(fs, root) && c.standardMounts
    requires Planned(fs, root, c, sources, source).mounts.Ok? && KindOf(sources, CGROUP.source) == Some(DirSource)
    requires PlanInSight(fs, root, c, sources, source)
    ensures PlanNested(Planned(fs, root, c, sources, source), root, c, source)
  {
    hide Planned, SysIn, CgroupIn, WellFormed, Apart, GoTo, Nested, InSight, Compared, Unlike, Operations;
    var plan := Planned(fs, root, c, sources, source);
    var q, sys := plan.fs, SysMount(plan.fs, root);
    var parts, targets := PlanPieces(fs, root, c, sources, source);
    var seen :| PartsOf(fs, root, c, sources, source, seen) && InSight(seen, seen.cgroup[0], sys);
    assert seen == parts;
    var cgroup := parts.cgroup[0];
    CheckedUnlike(fs, root, c, sources, source, parts);
    CgroupIsBound(q, root, sources, parts.cgroup);
    PrefixBelow(root, CgroupIn(q, root), SysIn(q, root));
    if CgroupIn(q, root) <= SysIn(q, root) {
      SysHidden(fs, root, c, sources, source, sys.target);
    }
    forall m | m in parts.Checked() && (m.target <= cgroup.target || cgroup.target <= m.target)
      ensures m == sys && sys.target < cgroup.target
    {
      InSightIsClear(parts, cgroup, sys, m);
    }
  }

  /**
   The exact condition in terms of what paths see: in an accepted plan, and
   whatever tmpfs mounts the planner accepts beside it, paths under the
   cgroup bind see it, `/sys` is seen, and no other mount is hidden anywhere,
   if and only if the bind's resolved target lies strictly inside `/sys`.
   */
  lemma CgroupInSightIff(fs: Tree, root: Path, c: Sandrun.Config, sources: Sources, source: string -> string)
    requires WellFormed(fs) && IsDir(fs, root) && c.standardMounts
    requires Planned(fs, root, c, sources, source).mounts.Ok? && KindOf(sources, CGROUP.source) == Some(DirSource)
    ensures var p := Planned(fs, root, c, sources, source).fs;
            AlwaysInSight(fs, root, c, sources, source) <==> SysIn(p, root) < CgroupIn(p, root)
  {
    hide Planned, SysIn, CgroupIn, WellFormed, PlanInSight, PlanNested;
    var q := Planned(fs, root, c, sources, source).fs;
    if SysIn(q, root) < CgroupIn(q, root) {
      forall more | Planned(fs, root, WithTmpfs(c, more), sources, source).mounts.Ok?
        ensures PlanInSight(fs, root, WithTmpfs(c, more), sources, source)
      {
        SameTree(fs, root, c, sources, source, more);
        InsideSysIsInSight(fs, root, WithTmpfs(c, more), sources, source);
      }
    }
    if AlwaysInSight(fs, root, c, sources, source) {
      forall more | Planned(fs, root, WithTmpfs(c, more), sources, source).mounts.Ok?
        ensures PlanNested(Planned(fs, root, WithTmpfs(c, more), sources, source), root, WithTmpfs(c, more), source)
      {
        InSightIsNested(fs, root, WithTmpfs(c, more), sources, source);
      }
      CgroupNestedIff(fs, root, c, sources, source);
    }
  }

  /**
   The intruding tmpfs also passes the check on the command line exactly when
   no target the declaration already has overlaps it in its text.
   */
  lemma IntruderAtCommandLine(c: Sandrun.Config, t: string)
    requires Sandrun.ClashFrom(Declared(c), 0).None?
    ensures Sandrun.ClashFrom(Declared(WithTmpfs(c, [t])), 0).None?
            <==> forall x :: x in Declared(c) ==> !ComponentsOverlap(t, x)
  {
    var all, more := Declared(c), Declared(WithTmpfs(c, [t]));
    assert more == all + [t];
    Sandrun.ClashFromMeaning(all, 0);
    Sandrun.ClashFromMeaning(more, 0);
    if forall x :: x in all ==> !ComponentsOverlap(t, x) {
      forall a, b | 0 <= b < a < |more|
        ensures !ComponentsOverlap(more[a], more[b])
      {
        assert more[b] == all[b] && all[b] in all;
        assert a < |all| ==> more[a] == all[a];
      }
    }
    if Sandrun.ClashFrom(more, 0).None? {
      forall x | x in all
        ensures !ComponentsOverlap(t, x)
      {
        var b :| 0 <= b < |all| && all[b] == x;
        assert more[|all|] == t && more[b] == x;
      }
    }
  }

  /** The targets the command line declares, as sandrun's parser compares them. */
  function Declared(c: Sandrun.Config): seq<string> {
    Sandrun.MountTargets(c.standardMounts, c.diskMounts, c.binds, c.tmpfs)
  }
}
