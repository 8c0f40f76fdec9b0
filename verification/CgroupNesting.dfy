/**
 The one bind whose target is not compared with the others. It is meant to sit
 inside the `/sys` mount; whether it does depends on the links of the root.
 */
module CgroupNesting {
  import opened Wrappers
  import opened Paths
  import opened Resolver
  import opened BindTargets
  import opened MountPlan
  import opened MountViews
  import Sandrun
  import opened Sequences

  /** The cgroup bind meets no compared target except by lying strictly inside `/sys`. */
  ghost predicate Nested(targets: seq<seq<string>>, sys: seq<string>, cgroup: seq<string>) {
    forall t :: t in targets && (t <= cgroup || cgroup <= t) ==> t == sys && sys < cgroup
  }

  lemma NestedUnder(targets: seq<seq<string>>, sys: seq<string>, cgroup: seq<string>)
    requires Disjoint(targets) && sys in targets && sys < cgroup
    ensures Nested(targets, sys, cgroup)
  {
    var i :| 0 <= i < |targets| && targets[i] == sys;
    forall t | t in targets && (t <= cgroup || cgroup <= t)
      ensures t == sys
    {
      var j :| 0 <= j < |targets| && targets[j] == t;
      if t <= cgroup {
        PrefixesComparable(t, sys, cgroup);
      }
    }
  }

  /** If it is nested and yet not inside `/sys`, it meets no compared target at all. */
  lemma NestedElsewhere(targets: seq<seq<string>>, sys: seq<string>, cgroup: seq<string>)
    requires Nested(targets, sys, cgroup) && !(sys < cgroup) && Disjoint(targets)
    ensures Disjoint(targets + [cgroup])
  {
    var all := targets + [cgroup];
    forall i, j | 0 <= i < |all| && 0 <= j < |all| && i != j
      ensures !(all[i] <= all[j])
    {
      if i < |targets| {
        assert targets[i] in targets;
      }
      if j < |targets| {
        assert targets[j] in targets;
      }
    }
  }

  // ------------------------------------------------------- accepted plans

  /** A resolved path as seen from inside the root. */
  function Inside(root: Path, r: Outcome): seq<string> {
    if r.Ok? && root <= r.value then r.value[|root|..] else []
  }

  function SysIn(fs: Tree, root: Path): seq<string> {
    Inside(root, Resolve(fs, root, SYS.target))
  }

  function CgroupIn(fs: Tree, root: Path): seq<string> {
    Inside(root, Resolve(fs, root, CGROUP.target))
  }

  /** In an accepted plan the cgroup bind lies where it is meant to. */
  ghost predicate PlanNested(plan: Plan, root: Path, c: Sandrun.Config, source: string -> string) {
    && AllCovered(plan.fs, root, Compared(c, source)).Ok?
    && Nested(AllCovered(plan.fs, root, Compared(c, source)).value, SysIn(plan.fs, root), CgroupIn(plan.fs, root))
  }

  function WithTmpfs(c: Sandrun.Config, more: seq<string>): Sandrun.Config {
    c.(tmpfs := c.tmpfs + more)
  }

  /** It lies there whatever further tmpfs mounts are accepted beside it. */
  ghost predicate AlwaysNested(
      fs: Tree, root: Path, c: Sandrun.Config, sources: Sources, source: string -> string)
  {
    forall more :: Planned(fs, root, WithTmpfs(c, more), sources, source).mounts.Ok? ==>
      PlanNested(Planned(fs, root, WithTmpfs(c, more), sources, source), root, WithTmpfs(c, more), source)
  }

  /** What an accepted plan with standard mounts says of the two targets. */
  lemma PlanTargets(fs: Tree, root: Path, c: Sandrun.Config, sources: Sources, source: string -> string)
    returns (targets: seq<seq<string>>)
    requires WellFormed(fs) && IsDir(fs, root) && c.standardMounts
    requires Planned(fs, root, c, sources, source).mounts.Ok?
    ensures var p := Planned(fs, root, c, sources, source).fs;
            && AllCovered(p, root, Compared(c, source)) == Ok(targets)
            && Disjoint(targets) && SysIn(p, root) in targets
            && Resolve(p, root, CGROUP.target) == Ok(root + CgroupIn(p, root))
  {
    var p := Planned(fs, root, c, sources, source).fs;
    var disks := PlanSettles(fs, root, c, sources, source);
    targets := AllCovered(p, root, Compared(c, source)).value;
    CheckMeaning(p, root, Compared(c, source));
    SysIsCompared(p, root, c, source);
    CgroupResolves(fs, root, c, sources, source);
  }

  lemma SysIsCompared(fs: Tree, root: Path, c: Sandrun.Config, source: string -> string)
    requires c.standardMounts && AllCovered(fs, root, Compared(c, source)).Ok?
    ensures SysIn(fs, root) in AllCovered(fs, root, Compared(c, source)).value
  {
    hide Covered, Resolve, SysIn, Compared, Requested;
    var covers := CoveredIn(fs, root);
    var ask := AskBind(SYS, false);
    var first, middle, second := RequestParts(c, source);
    var rest := DiskBinds(c.diskMounts, source) + UserRequests(c);
    EachSplit(first + second, rest, covers);
    EachSplit(first, second, covers);
    SysIsLast();
    EachSnoc(BEFORE_CGROUP[..2], ask, covers);
    SysCovered(fs, root);
  }

  lemma SysIsLast()
    ensures BEFORE_CGROUP[..2] + [AskBind(SYS, false)] == BEFORE_CGROUP
  {
  }

  lemma SysCovered(fs: Tree, root: Path)
    requires Covered(fs, root, AskBind(SYS, false)).Ok?
    ensures Covered(fs, root, AskBind(SYS, false)) == Ok([SysIn(fs, root)])
  {
    hide Resolve;
    ResolvedInner(fs, root, SYS.target);
    var inner := ResolveInner(fs, root, SYS.target).value;
    assert (root + inner)[|root|..] == inner;
  }

  lemma CgroupResolves(fs: Tree, root: Path, c: Sandrun.Config, sources: Sources, source: string -> string)
    requires WellFormed(fs) && IsDir(fs, root) && c.standardMounts
    requires Planned(fs, root, c, sources, source).mounts.Ok?
    ensures var p := Planned(fs, root, c, sources, source).fs;
            Resolve(p, root, CGROUP.target) == Ok(root + CgroupIn(p, root))
  {
    hide Planned, Resolve, Solid, Apart, WellFormed, Extends;
    var p := Planned(fs, root, c, sources, source).fs;
    var parts := MountsNeverAlias(fs, root, c, sources, source);
    ResolveConfined(p, root, CGROUP.target);
    var target := Resolve(p, root, CGROUP.target).value;
    assert target == root + target[|root|..];
  }

  /** Adding tmpfs mounts changes nothing that the plan creates. */
  lemma SameTree(fs: Tree, root: Path, c: Sandrun.Config, sources: Sources, source: string -> string, more: seq<string>)
    ensures Planned(fs, root, WithTmpfs(c, more), sources, source).fs == Planned(fs, root, c, sources, source).fs
  {
    hide EnsureBinds, EnsureBind, PreparedDisks, CheckStart, CheckTargets, Operations;
  }

  /** Inside `/sys` the bind is nested in every accepted plan. */
  lemma InsideSysIsNested(fs: Tree, root: Path, c: Sandrun.Config, sources: Sources, source: string -> string)
    requires WellFormed(fs) && IsDir(fs, root) && c.standardMounts
    requires var plan := Planned(fs, root, c, sources, source);
             plan.mounts.Ok? && SysIn(plan.fs, root) < CgroupIn(plan.fs, root)
    ensures PlanNested(Planned(fs, root, c, sources, source), root, c, source)
  {
    hide Planned, SysIn, CgroupIn, AllCovered;
    var p := Planned(fs, root, c, sources, source).fs;
    var targets := PlanTargets(fs, root, c, sources, source);
    NestedUnder(targets, SysIn(p, root), CgroupIn(p, root));
  }

  // ------------------------------------------------- the intruding tmpfs

  lemma ComparedSnoc(c: Sandrun.Config, source: string -> string, t: string)
    ensures Compared(WithTmpfs(c, [t]), source) == Compared(c, source) + [AskTmpfs(t, 0x1ED)]
    ensures Requested(WithTmpfs(c, [t])) == Requested(c) + [AskTmpfs(t, 0x1ED)]
  {
    assert Tmpfses(c.tmpfs + [t]) == Tmpfses(c.tmpfs) + [AskTmpfs(t, 0x1ED)];
    var std := if c.standardMounts then BEFORE_CGROUP + [AskBind(CGROUP, true)] + AFTER_CGROUP else [];
    Regrouped(Standard(c) + DiskBinds(c.diskMounts, source) + Binds(c.binds), Tmpfses(c.tmpfs), [AskTmpfs(t, 0x1ED)]);
    Regrouped(std + Binds(c.binds), Tmpfses(c.tmpfs), [AskTmpfs(t, 0x1ED)]);
  }

  /** A tmpfs on a resolved directory is compared at, and mounted on, that directory. */
  lemma TmpfsAnswers(fs: Tree, root: Path, target: string, inner: seq<string>, mode: nat, sources: Sources)
    requires Resolve(fs, root, target) == Ok(root + inner) && inner != [] && IsDir(fs, root + inner)
    ensures Covered(fs, root, AskTmpfs(Text(inner), mode)) == Ok([inner])
    ensures Operation(fs, root, AskTmpfs(Text(inner), mode), sources) == Ok([Mount(root + inner, Tmpfs(mode))])
  {
    ResolveConfined(fs, root, target);
    assert (root + inner)[|root|..] == inner;
  }

  /** The host's cgroup hierarchy is a directory, so what the bind is mounted on is one too. */
  lemma CgroupIsDirectory(fs: Tree, root: Path, c: Sandrun.Config, sources: Sources, source: string -> string)
    requires WellFormed(fs) && IsDir(fs, root) && c.standardMounts
    requires Planned(fs, root, c, sources, source).mounts.Ok? && KindOf(sources, CGROUP.source) == Some(DirSource)
    ensures var p := Planned(fs, root, c, sources, source).fs; IsDir(p, root + CgroupIn(p, root))
  {
    hide Planned, Resolve, AllCovered, SysIn, CgroupIn, WellFormed, Extends;
    var p := Planned(fs, root, c, sources, source).fs;
    var disks := PlanSettles(fs, root, c, sources, source);
    var targets := PlanTargets(fs, root, c, sources, source);
    var first, middle, second := RequestParts(c, source);
    var ops := OperationIn(p, root, sources);
    EachSplit(first + middle + second, UserRequests(c), ops);
    EachSplit(first + middle, second, ops);
    EachSnoc(first, AskBind(CGROUP, true), ops);
  }

  /** An accepted plan with a nested cgroup bind outside `/sys` accepts a tmpfs on the same directory. */
  lemma IntruderAccepted(fs: Tree, root: Path, c: Sandrun.Config, sources: Sources, source: string -> string)
    requires WellFormed(fs) && IsDir(fs, root) && c.standardMounts
    requires KindOf(sources, CGROUP.source) == Some(DirSource)
    requires var plan := Planned(fs, root, c, sources, source);
             && plan.mounts.Ok? && PlanNested(plan, root, c, source)
             && !(SysIn(plan.fs, root) < CgroupIn(plan.fs, root))
    ensures var p := Planned(fs, root, c, sources, source).fs;
            var other := WithTmpfs(c, [Text(CgroupIn(p, root))]);
            && Planned(fs, root, other, sources, source).mounts.Ok?
            && AllCovered(p, root, Compared(other, source)).Ok?
            && CgroupIn(p, root) in AllCovered(p, root, Compared(other, source)).value
  {
    hide Resolve, SysIn, CgroupIn, WellFormed, Extends, Covered, Operation, Targeted, PreparedDisks, CheckStart;
    var p := Planned(fs, root, c, sources, source).fs;
    var sys, cgroup := SysIn(p, root), CgroupIn(p, root);
    var disks := PlanSettles(fs, root, c, sources, source);
    var targets := PlanTargets(fs, root, c, sources, source);
    NestedElsewhere(targets, sys, cgroup);
    assert cgroup != [] by {
      assert cgroup <= sys || cgroup != [];
    }
    CgroupIsDirectory(fs, root, c, sources, source);
    TmpfsAnswers(p, root, CGROUP.target, cgroup, 0x1ED, sources);
    var t := Text(cgroup);
    var ask := AskTmpfs(t, 0x1ED);
    ComparedSnoc(c, source, t);
    SnocOf(Compared(c, source), ask, CoveredIn(p, root));
    SnocOf(Requested(c), ask, OperationIn(p, root, sources));
    CheckMeaning(p, root, Compared(WithTmpfs(c, [t]), source));
    AcceptedAgain(fs, root, c, sources, source, t);
  }

  /** What is left of a plan when only a tmpfs is added: the two checks. */
  lemma AcceptedAgain(
      fs: Tree, root: Path, c: Sandrun.Config, sources: Sources, source: string -> string, t: string)
    requires Planned(fs, root, c, sources, source).mounts.Ok?
    requires var p, other := Planned(fs, root, c, sources, source).fs, WithTmpfs(c, [t]);
             && CheckTargets(p, root, Compared(other, source)).None?
             && Operations(p, root, Requested(other), sources).Ok?
    ensures Planned(fs, root, WithTmpfs(c, [t]), sources, source).mounts.Ok?
  {
    hide EnsureBinds, EnsureBind, PreparedDisks, CheckTargets, Operations, Compared, Requested, Resolve;
  }

  /**
   The exact condition for the intended nesting: an accepted plan keeps the
   cgroup bind clear of everything but `/sys`, whatever tmpfs mounts are
   accepted beside it, if and only if the bind's resolved target lies strictly
   inside the resolved `/sys`.
   */
  lemma CgroupNestedIff(fs: Tree, root: Path, c: Sandrun.Config, sources: Sources, source: string -> string)
    requires WellFormed(fs) && IsDir(fs, root) && c.standardMounts
    requires Planned(fs, root, c, sources, source).mounts.Ok? && KindOf(sources, CGROUP.source) == Some(DirSource)
    ensures var p := Planned(fs, root, c, sources, source).fs;
            AlwaysNested(fs, root, c, sources, source) <==> SysIn(p, root) < CgroupIn(p, root)
  {
    hide Planned, SysIn, CgroupIn, AllCovered, WellFormed, Compared;
    var plan := Planned(fs, root, c, sources, source);
    if SysIn(plan.fs, root) < CgroupIn(plan.fs, root) {
      forall more | Planned(fs, root, WithTmpfs(c, more), sources, source).mounts.Ok?
        ensures PlanNested(Planned(fs, root, WithTmpfs(c, more), sources, source), root, WithTmpfs(c, more), source)
      {
        SameTree(fs, root, c, sources, source, more);
        InsideSysIsNested(fs, root, WithTmpfs(c, more), sources, source);
      }
    } else {
      assert WithTmpfs(c, []) == c by {
        assert c.tmpfs + [] == c.tmpfs;
      }
      if PlanNested(plan, root, c, source) {
        var more := [Text(CgroupIn(plan.fs, root))];
        IntruderAccepted(fs, root, c, sources, source);
        SameTree(fs, root, c, sources, source, more);
        assert !PlanNested(Planned(fs, root, WithTmpfs(c, more), sources, source), root, WithTmpfs(c, more), source);
      }
    }
  }

  // ----------------------------------------------------- what goes wrong

  /** The mount of `/sys` in an accepted plan. */
  function SysMount(fs: Tree, root: Path): Mount {
    Mount(root + SysIn(fs, root), BoundTo(SYS.source, true, false))
  }

  lemma SysIsMounted(fs: Tree, root: Path, sources: Sources, before: seq<Mount>)
    requires Operations(fs, root, BEFORE_CGROUP, sources) == Ok(before)
    requires Resolve(fs, root, SYS.target) == Ok(root + SysIn(fs, root))
    ensures before != [] && before[|before| - 1] == SysMount(fs, root)
  {
    hide Resolve;
    SysIsLast();
    EachSnoc(BEFORE_CGROUP[..2], AskBind(SYS, false), OperationIn(fs, root, sources));
  }

  lemma CgroupIsWritable(fs: Tree, root: Path, sources: Sources, cgroup: seq<Mount>)
    requires Operations(fs, root, [AskBind(CGROUP, true)], sources) == Ok(cgroup) && |cgroup| == 1
    ensures cgroup[0].content.BoundTo? && !cgroup[0].content.readonly
  {
    hide Resolve;
    var ask := AskBind(CGROUP, true);
    assert [] + [ask] == [ask];
    EachSnoc([], ask, OperationIn(fs, root, sources));
    assert Each([], OperationIn(fs, root, sources)) == [];
  }

  /** A mount hides from every path an earlier one at or below its own target. */
  lemma HiddenBehind(before: seq<Mount>, over: Mount, rest: seq<Mount>, under: Mount, p: Path)
    requires over.target <= under.target && over != under && under !in rest
    ensures View(before + [over] + rest, p) != Some(under)
  {
    ViewConcat(before + [over], rest, p);
    ViewConcat(before, [over], p);
    ViewMeaning(before + [over] + rest, p);
    ViewMeaning(rest, p);
    if Covers(under, p) {
      assert over.target == under.target[..|over.target|];
      assert Covers(over, p);
    }
  }

  /**
   Why lying at `/sys` itself, or above it, is not enough: no path then sees
   the read-only `/sys` mount at all.
   */
  lemma SysHidden(fs: Tree, root: Path, c: Sandrun.Config, sources: Sources, source: string -> string, p: Path)
    requires WellFormed(fs) && IsDir(fs, root) && c.standardMounts
    requires var plan := Planned(fs, root, c, sources, source);
             plan.mounts.Ok? && CgroupIn(plan.fs, root) <= SysIn(plan.fs, root)
    ensures var plan := Planned(fs, root, c, sources, source);
            View(plan.mounts.value, p) != Some(SysMount(plan.fs, root))
  {
    hide Planned, Resolve, SysIn, CgroupIn, WellFormed, Extends, Solid, Operations, AllCovered, GoTo, PartsOf;
    var q := Planned(fs, root, c, sources, source).fs;
    var parts := MountsNeverAlias(fs, root, c, sources, source);
    StandardPieces(fs, root, c, sources, source, parts);
    CgroupResolves(fs, root, c, sources, source);
    SysResolves(fs, root, c, sources, source);
    hide Apart;
    SysIsMounted(q, root, sources, parts.before);
    CgroupIsWritable(q, root, sources, parts.cgroup);
    var sys, cgroup := SysMount(q, root), parts.cgroup[0];
    assert parts.cgroup == [cgroup];
    Regrouped(parts.before, parts.after, parts.user);
    OnlyOnce(parts.before, parts.after + parts.user, sys);
    Regrouped(parts.before + parts.cgroup, parts.after, parts.user);
    PrefixBelow(root, CgroupIn(q, root), SysIn(q, root));
    HiddenBehind(parts.before, cgroup, parts.after + parts.user, sys, p);
  }

  lemma StandardPieces(
      fs: Tree, root: Path, c: Sandrun.Config, sources: Sources, source: string -> string, parts: Parts)
    requires PartsOf(fs, root, c, sources, source, parts) && c.standardMounts
    ensures var plan := Planned(fs, root, c, sources, source);
            && plan.mounts == Ok(parts.All())
            && Operations(plan.fs, root, BEFORE_CGROUP, sources) == Ok(parts.before)
            && Operations(plan.fs, root, [AskBind(CGROUP, true)], sources) == Ok(parts.cgroup)
  {
    hide Planned, Operations, PreparedDisks, Targeted;
  }

  lemma SysResolves(fs: Tree, root: Path, c: Sandrun.Config, sources: Sources, source: string -> string)
    requires WellFormed(fs) && IsDir(fs, root) && c.standardMounts
    requires Planned(fs, root, c, sources, source).mounts.Ok?
    ensures var q := Planned(fs, root, c, sources, source).fs;
            Resolve(q, root, SYS.target) == Ok(root + SysIn(q, root))
  {
    hide Planned, Resolve, WellFormed, Extends, Solid, Apart, AllCovered, GoTo, PartsOf;
    var q := Planned(fs, root, c, sources, source).fs;
    var parts := MountsNeverAlias(fs, root, c, sources, source);
    StandardPieces(fs, root, c, sources, source, parts);
    SysIsLast();
    EachSnoc(BEFORE_CGROUP[..2], AskBind(SYS, false), OperationIn(q, root, sources));
    ResolveConfined(q, root, SYS.target);
    var target := Resolve(q, root, SYS.target).value;
    assert target == root + target[|root|..];
  }

  lemma OnlyOnce(a: seq<Mount>, b: seq<Mount>, m: Mount)
    requires Apart(a + b) && a != [] && a[|a| - 1] == m
    ensures m !in b
  {
    forall j | 0 <= j < |b|
      ensures b[j] != m
    {
      assert (a + b)[|a| - 1] == m && (a + b)[|a| + j] == b[j];
      assert m.target <= m.target;
    }
  }
}
