/** What the mounts of an accepted plan are of, item by item, and when targets can be prepared. */
module PlanContents {
  import opened Wrappers
  import opened Paths
  import opened Resolver
  import opened BindTargets
  import opened MountPlan
  import opened MountViews
  import Sandrun
  import opened Sequences

  // ------------------------------------------------ one mount per request

  /** Each of these requests is answered, if at all, by one mount. */
  ghost predicate Single(rs: seq<Request>, ops: Operator) {
    forall r :: r in rs && ops(r).Ok? ==> |ops(r).value| == 1
  }

  lemma {:induction false} SinglesAnswer(rs: seq<Request>, ops: Operator)
    requires AllOf(rs, ops).Ok? && Single(rs, ops)
    ensures |AllOf(rs, ops).value| == |rs|
    ensures forall i :: 0 <= i < |rs| ==> ops(rs[i]) == Ok([AllOf(rs, ops).value[i]])
    decreases |rs|
  {
    if rs != [] {
      var init, last := rs[..|rs| - 1], rs[|rs| - 1];
      assert rs == init + [last];
      EachSnoc(init, last, ops);
      SinglesAnswer(init, ops);
      var before, all := AllOf(init, ops).value, AllOf(rs, ops).value;
      assert all == before + ops(last).value;
      forall i | 0 <= i < |rs|
        ensures ops(rs[i]) == Ok([all[i]])
      {
        if i < |init| {
          assert rs[i] == init[i] && all[i] == before[i];
        } else {
          assert ops(last).value == [all[i]];
        }
      }
    }
  }

  /** A mount of `source` on the node a target resolves to, with these flags. */
  ghost predicate IsBindOf(fs: Tree, root: Path, m: Mount, source: string, target: string, readonly: bool, all: bool) {
    m.content == BoundTo(source, readonly, all) && Resolve(fs, root, target) == Ok(m.target)
  }

  /** A tmpfs of this mode on the directory a target resolves to. */
  ghost predicate IsTmpfsOn(fs: Tree, root: Path, m: Mount, target: string, mode: nat) {
    m.content == Tmpfs(mode) && Resolve(fs, root, target) == Ok(m.target) && IsDir(fs, m.target)
  }

  lemma BindAnswer(fs: Tree, root: Path, b: Sandrun.Bind, all: bool, sources: Sources)
    requires Operation(fs, root, AskBind(b, all), sources).Ok?
    ensures var ms := Operation(fs, root, AskBind(b, all), sources).value;
            && |ms| == 1 && KindOf(sources, b.source).Some?
            && IsBindOf(fs, root, ms[0], b.source, b.target, b.readonly,
                        all && KindOf(sources, b.source) == Some(DirSource))
            && ms[0].target in fs
            && (KindOf(sources, b.source) == Some(DirSource) <==> fs[ms[0].target].Dir?)
            && (KindOf(sources, b.source) == Some(FileSource) <==> fs[ms[0].target].File?)
  {
    hide Resolve;
  }

  lemma TmpfsAnswer(fs: Tree, root: Path, target: string, mode: nat, sources: Sources)
    requires Operation(fs, root, AskTmpfs(target, mode), sources).Ok?
    ensures var ms := Operation(fs, root, AskTmpfs(target, mode), sources).value;
            |ms| == 1 && IsTmpfsOn(fs, root, ms[0], target, mode)
  {
    hide Resolve;
  }

  // ------------------------------------------------------------ the user's

  lemma UserSingle(fs: Tree, root: Path, c: Sandrun.Config, sources: Sources)
    ensures Single(UserRequests(c), OperationIn(fs, root, sources))
  {
    hide Operation;
    var ops := OperationIn(fs, root, sources);
    forall r | r in UserRequests(c) && ops(r).Ok?
      ensures |ops(r).value| == 1
    {
      match r
      case AskBind(b, all) => BindAnswer(fs, root, b, all, sources);
      case AskTmpfs(target, mode) => TmpfsAnswer(fs, root, target, mode, sources);
    }
  }

  /** The mounts for the declared binds and tmpfs targets, in order. */
  lemma UserMounts(fs: Tree, root: Path, c: Sandrun.Config, sources: Sources, ms: seq<Mount>)
    requires Operations(fs, root, UserRequests(c), sources) == Ok(ms)
    ensures |ms| == |c.binds| + |c.tmpfs|
    ensures forall i :: 0 <= i < |c.binds| ==>
              IsBindOf(fs, root, ms[i], c.binds[i].source, c.binds[i].target, c.binds[i].readonly, false)
    ensures forall i :: 0 <= i < |c.tmpfs| ==> IsTmpfsOn(fs, root, ms[|c.binds| + i], c.tmpfs[i], 0x1ED)
  {
    hide Operation, IsBindOf, IsTmpfsOn;
    var rs := UserRequests(c);
    UserSingle(fs, root, c, sources);
    SinglesAnswer(rs, OperationIn(fs, root, sources));
    forall i | 0 <= i < |c.binds|
      ensures IsBindOf(fs, root, ms[i], c.binds[i].source, c.binds[i].target, c.binds[i].readonly, false)
    {
      assert OperationIn(fs, root, sources)(rs[i]) == Ok([ms[i]]);
      assert rs[i].bind.source == c.binds[i].source && rs[i].bind.target == c.binds[i].target;
      BindAnswer(fs, root, rs[i].bind, rs[i].recursive, sources);
    }
    forall i | 0 <= i < |c.tmpfs|
      ensures IsTmpfsOn(fs, root, ms[|c.binds| + i], c.tmpfs[i], 0x1ED)
    {
      assert OperationIn(fs, root, sources)(rs[|c.binds| + i]) == Ok([ms[|c.binds| + i]]);
      TmpfsAnswer(fs, root, rs[|c.binds| + i].target, rs[|c.binds| + i].mode, sources);
    }
  }

  /** Disk mounts are writable binds of their own sources. */
  lemma {:induction false} DiskMounts(fs: Tree, root: Path, disks: seq<string>, source: string -> string)
    requires PreparedDisks(fs, root, disks, source).mounts.Ok?
    ensures var ms := PreparedDisks(fs, root, disks, source).mounts.value;
            |ms| == |disks| && forall i :: 0 <= i < |disks| ==> ms[i].content == BoundTo(source(disks[i]), false, false)
    decreases |disks|
  {
    hide EnsureBind, Resolve;
    if disks != [] {
      DiskMounts(fs, root, disks[..|disks| - 1], source);
    }
  }

  // -------------------------------------------------------- the standard ones

  lemma ProcAnswer(fs: Tree, root: Path, sources: Sources)
    requires Operation(fs, root, AskProc("/proc"), sources).Ok?
    ensures var ms := Operation(fs, root, AskProc("/proc"), sources).value;
            |ms| == 1 && ms[0].content == Proc && Resolve(fs, root, "/proc") == Ok(ms[0].target)
  {
    hide Resolve;
  }

  lemma DnsAnswer(fs: Tree, root: Path, sources: Sources)
    requires Operation(fs, root, AskDns, sources).Ok?
    ensures Resolve(fs, root, "/etc").Ok?
    ensures var etc := Resolve(fs, root, "/etc").value;
            Operation(fs, root, AskDns, sources)
            == Ok([Mount(etc + ["resolv.conf"], BoundTo("/etc/resolv.conf", true, false)),
                   Mount(etc + ["hosts"], BoundTo("/etc/hosts", true, false))])
  {
    hide Resolve;
  }

  lemma ThreeOf(a: Request, b: Request, c: Request, ops: Operator)
    requires AllOf([a, b, c], ops).Ok?
    ensures ops(a).Ok? && ops(b).Ok? && ops(c).Ok?
    ensures AllOf([a, b, c], ops).value == ops(a).value + ops(b).value + ops(c).value
  {
    assert [] + [a] == [a] && [a] + [b] == [a, b] && [a, b] + [c] == [a, b, c];
    EachSnoc([a, b], c, ops);
    EachSnoc([a], b, ops);
    EachSnoc([], a, ops);
    assert Each([], ops) == [];
  }

  /** `/proc`, then `/dev` with all that is mounted in it, then `/sys` read-only. */
  lemma MountsBefore(fs: Tree, root: Path, sources: Sources, ms: seq<Mount>)
    requires Operations(fs, root, BEFORE_CGROUP, sources) == Ok(ms)
    ensures |ms| == 3
    ensures ms[0].content == Proc && Resolve(fs, root, "/proc") == Ok(ms[0].target)
    ensures IsBindOf(fs, root, ms[1], "/dev", "/dev", false, KindOf(sources, "/dev") == Some(DirSource))
    ensures IsBindOf(fs, root, ms[2], "/sys", "/sys", true, false)
  {
    hide Operation;
    var dev := Sandrun.Bind("/dev", "/dev", false);
    ThreeOf(AskProc("/proc"), AskBind(dev, true), AskBind(SYS, false), OperationIn(fs, root, sources));
    ProcAnswer(fs, root, sources);
    BindAnswer(fs, root, dev, true, sources);
    BindAnswer(fs, root, SYS, false, sources);
  }

  /** The host's cgroup hierarchy, writable and with all that is mounted in it. */
  lemma MountsAtCgroup(fs: Tree, root: Path, sources: Sources, ms: seq<Mount>)
    requires Operations(fs, root, [AskBind(CGROUP, true)], sources) == Ok(ms)
    ensures |ms| == 1
    ensures IsBindOf(fs, root, ms[0], "/sys/fs/cgroup", "/sys/fs/cgroup", false,
                     KindOf(sources, "/sys/fs/cgroup") == Some(DirSource))
  {
    hide Operation;
    var ops := OperationIn(fs, root, sources);
    assert [] + [AskBind(CGROUP, true)] == [AskBind(CGROUP, true)];
    EachSnoc([], AskBind(CGROUP, true), ops);
    assert Each([], ops) == [];
    BindAnswer(fs, root, CGROUP, true, sources);
  }

  /** A `/tmp` for everyone, a `/run`, and the host's two DNS files read-only. */
  lemma MountsAfter(fs: Tree, root: Path, sources: Sources, ms: seq<Mount>)
    requires Operations(fs, root, AFTER_CGROUP, sources) == Ok(ms)
    ensures |ms| == 4 && Resolve(fs, root, "/etc").Ok?
    ensures IsTmpfsOn(fs, root, ms[0], "/tmp", 0x3FF) && IsTmpfsOn(fs, root, ms[1], "/run", 0x1ED)
    ensures var etc := Resolve(fs, root, "/etc").value;
            && ms[2] == Mount(etc + ["resolv.conf"], BoundTo("/etc/resolv.conf", true, false))
            && ms[3] == Mount(etc + ["hosts"], BoundTo("/etc/hosts", true, false))
  {
    hide Operation, Resolve;
    ThreeOf(AskTmpfs("/tmp", 0x3FF), AskTmpfs("/run", 0x1ED), AskDns, OperationIn(fs, root, sources));
    TmpfsAnswer(fs, root, "/tmp", 0x3FF, sources);
    TmpfsAnswer(fs, root, "/run", 0x1ED, sources);
    DnsAnswer(fs, root, sources);
  }

  // ------------------------------------------------------------ whole plans

  /** The standard mounts, each with its source, target and flags. */
  ghost predicate StandardContents(fs: Tree, root: Path, sources: Sources, parts: Parts) {
    && |parts.before| == 3 && |parts.cgroup| == 1 && |parts.after| == 4
    && parts.before[0].content == Proc && Resolve(fs, root, "/proc") == Ok(parts.before[0].target)
    && IsBindOf(fs, root, parts.before[1], "/dev", "/dev", false, KindOf(sources, "/dev") == Some(DirSource))
    && IsBindOf(fs, root, parts.before[2], "/sys", "/sys", true, false)
    && IsBindOf(fs, root, parts.cgroup[0], "/sys/fs/cgroup", "/sys/fs/cgroup", false,
                KindOf(sources, "/sys/fs/cgroup") == Some(DirSource))
    && IsTmpfsOn(fs, root, parts.after[0], "/tmp", 0x3FF) && IsTmpfsOn(fs, root, parts.after[1], "/run", 0x1ED)
    && Resolve(fs, root, "/etc").Ok?
    && var etc := Resolve(fs, root, "/etc").value;
       && parts.after[2] == Mount(etc + ["resolv.conf"], BoundTo("/etc/resolv.conf", true, false))
       && parts.after[3] == Mount(etc + ["hosts"], BoundTo("/etc/hosts", true, false))
  }

  /** The user's mounts: binds, tmpfs and disk mounts as declared, in that order and no others. */
  ghost predicate UserContents(
      fs: Tree, root: Path, c: Sandrun.Config, source: string -> string, user: seq<Mount>)
  {
    var b, t := |c.binds|, |c.tmpfs|;
    && |user| == b + t + |c.diskMounts|
    && (forall i :: 0 <= i < b ==>
          IsBindOf(fs, root, user[i], c.binds[i].source, c.binds[i].target, c.binds[i].readonly, false))
    && (forall i :: 0 <= i < t ==> IsTmpfsOn(fs, root, user[b + i], c.tmpfs[i], 0x1ED))
    && forall i :: 0 <= i < |c.diskMounts| ==>
         IsBindOf(fs, root, user[b + t + i], source(c.diskMounts[i]), c.diskMounts[i], false, false)
  }

  lemma StandardOf(fs: Tree, root: Path, c: Sandrun.Config, sources: Sources, source: string -> string, parts: Parts)
    requires PartsOf(fs, root, c, sources, source, parts) && c.standardMounts
    ensures StandardContents(Planned(fs, root, c, sources, source).fs, root, sources, parts)
  {
    hide Planned, Operations, Resolve, Targeted, PreparedDisks, IsBindOf, IsTmpfsOn;
    var q := Planned(fs, root, c, sources, source).fs;
    MountsBefore(q, root, sources, parts.before);
    MountsAtCgroup(q, root, sources, parts.cgroup);
    MountsAfter(q, root, sources, parts.after);
  }

  lemma UserOf(fs: Tree, root: Path, c: Sandrun.Config, sources: Sources, source: string -> string, parts: Parts)
    requires WellFormed(fs) && IsDir(fs, root) && Planned(fs, root, c, sources, source).mounts.Ok?
    requires PartsOf(fs, root, c, sources, source, parts)
    ensures UserContents(Planned(fs, root, c, sources, source).fs, root, c, source, parts.user)
  {
    hide Planned, Operations, Resolve, Targeted, PreparedDisks, IsTmpfsOn, CheckTargets, Extends, WellFormed, Requested;
    var q := Planned(fs, root, c, sources, source).fs;
    var disks := PlanSettles(fs, root, c, sources, source);
    UserMounts(q, root, c, sources, Operations(q, root, UserRequests(c), sources).value);
    DiskMounts(Targeted(fs, root, c, sources).fs, root, c.diskMounts, source);
  }

  /**
   What an accepted plan mounts, in order: the standard mounts with their
   fixed sources, targets and flags, if they are asked for; then every
   declared bind from its own source with its own read-only flag, every tmpfs,
   and every disk mount as a writable bind of its own source.
   */
  lemma AcceptedContents(fs: Tree, root: Path, c: Sandrun.Config, sources: Sources, source: string -> string)
    returns (parts: Parts)
    requires WellFormed(fs) && IsDir(fs, root)
    requires Planned(fs, root, c, sources, source).mounts.Ok?
    ensures var plan := Planned(fs, root, c, sources, source);
            && plan.mounts == Ok(parts.before + parts.cgroup + parts.after + parts.user)
            && (if c.standardMounts then StandardContents(plan.fs, root, sources, parts)
                else parts.before == parts.cgroup == parts.after == [])
            && UserContents(plan.fs, root, c, source, parts.user)
  {
    hide Planned, WellFormed, Extends, Apart, GoTo, Solid, StandardContents, UserContents, AllCovered, Compared,
         Resolve;
    parts := MountsNeverAlias(fs, root, c, sources, source);
    UserOf(fs, root, c, sources, source, parts);
    if c.standardMounts {
      StandardOf(fs, root, c, sources, source, parts);
    }
    hide PreparedDisks, Targeted, Operations;
  }

  /** An accepted plan starts an executable file of the root in a directory of the root. */
  lemma AcceptedStart(fs: Tree, root: Path, c: Sandrun.Config, sources: Sources, source: string -> string)
    requires Planned(fs, root, c, sources, source).mounts.Ok?
    ensures var q := Planned(fs, root, c, sources, source).fs;
            && c.command != []
            && Resolve(q, root, c.workdir).Ok? && IsDir(q, Resolve(q, root, c.workdir).value)
            && Resolve(q, root, c.command[0]).Ok?
            && var program := Resolve(q, root, c.command[0]).value;
               program in q && q[program].File? && program in sources.executables
  {
    hide Resolve, EnsureBinds, EnsureBind, PreparedDisks, CheckTargets, Operations;
  }

  // ------------------------------------------------------ targets that work

  /** The parent of a target can be made or found, and at its end there is nothing yet. */
  ghost predicate Missing(fs: Tree, root: Path, names: seq<string>) {
    && names != []
    && var before := EnsureDirectory(fs, root, Text(names[..|names| - 1]));
       before.outcome.Ok? && before.outcome.value + [names[|names| - 1]] !in before.fs
  }

  lemma EnsureBindIsTarget(fs: Tree, root: Path, names: seq<string>, kind: SourceKind)
    requires AllPlain(names) && names != []
    ensures var last := |names| - 1;
            var made := EnsureTarget(fs, root, Text(names[..last]), names[last], kind);
            EnsureBind(fs, root, Text(names), Some(kind))
            == Ensured(made.fs, if made.outcome.Ok? then None else Some(Unresolved(made.outcome.error)))
  {
    hide EnsureTarget;
    TextComponents(names);
    NamesOfNormals(names);
  }

  lemma NamesOfNormals(names: seq<string>)
    ensures Names([RootDir] + Normals(names)) == names
  {
    assert ([RootDir] + Normals(names))[1..] == Normals(names);
    NamesOf(names);
  }

  lemma {:induction false} NamesOf(names: seq<string>)
    ensures Names(Normals(names)) == names
    decreases names
  {
    if names != [] {
      assert Normals(names)[1..] == Normals(names[1..]);
      NamesOf(names[1..]);
    }
  }

  /**
   A bind whose target is missing gets a target of its own kind, so that it is
   prepared: it is never refused as incompatible.
   */
  lemma MissingTargetWorks(fs: Tree, root: Path, b: Sandrun.Bind, names: seq<string>, all: bool, kind: SourceKind)
    requires WellFormed(fs) && IsDir(fs, root) && AllPlain(names) && b.target == Text(names)
    requires Missing(fs, root, names) && !kind.OtherSource?
    ensures var made := EnsureBind(fs, root, b.target, Some(kind));
            && made.fault.None? && WellFormed(made.fs) && IsDir(made.fs, root)
            && var r := PreparedBind(made.fs, root, b, all, Some(kind));
               && r.Ok? && IsBindOf(made.fs, root, r.value, b.source, b.target, b.readonly, all && kind.DirSource?)
               && r.value.target in made.fs && r.value.target !in fs
               && made.fs[r.value.target] == if kind.DirSource? then Dir else File
  {
    hide EnsureDirectory, EnsureTarget, Resolve, WellFormed, EnsureBind, Text, Components;
    var last := |names| - 1;
    var parent, name := names[..last], names[last];
    assert parent + [name] == names;
    assert name in names;
    EnsureBindIsTarget(fs, root, names, kind);
    CreatedKind(fs, root, parent, name, kind);
    EnsureTargetResolves(fs, root, parent, name, kind);
    CleanParent(parent);
    EnsureDirectoryResolves(fs, root, Text(parent));
  }

  lemma CleanParent(parent: seq<string>)
    requires AllPlain(parent)
    ensures CleanTarget(Text(parent))
  {
    TextComponents(parent);
  }

  /** One more disk mount on a missing target succeeds whenever the earlier ones did. */
  lemma MissingDiskWorks(fs: Tree, root: Path, disks: seq<string>, names: seq<string>, source: string -> string)
    requires WellFormed(fs) && IsDir(fs, root) && AllPlain(names)
    requires PreparedDisks(fs, root, disks, source).mounts.Ok?
    requires Missing(PreparedDisks(fs, root, disks, source).fs, root, names)
    ensures var made := PreparedDisks(fs, root, disks + [Text(names)], source);
            && made.mounts.Ok? && |made.mounts.value| == |disks| + 1
            && IsBindOf(made.fs, root, made.mounts.value[|disks|], source(Text(names)), Text(names), false, false)
            && IsDir(made.fs, made.mounts.value[|disks|].target)
  {
    hide EnsureBind, Resolve, WellFormed, Extends, Missing;
    var before := PreparedDisks(fs, root, disks, source);
    DisksExtend(fs, root, disks, source);
    assert (disks + [Text(names)])[..|disks|] == disks;
    MissingTargetWorks(before.fs, root, Sandrun.Bind(source(Text(names)), Text(names), false), names, false, DirSource);
  }

  // ---------------------------------------------- which targets are created

  /** After a bind target was prepared, its parent resolves and there is a node of its name. */
  ghost predicate HasNode(fs: Tree, root: Path, names: seq<string>) {
    && names != []
    && var up := Resolve(fs, root, Text(names[..|names| - 1]));
       up.Ok? && IsDir(fs, up.value) && up.value + [names[|names| - 1]] in fs
  }

  lemma EnsuredHasNode(fs: Tree, root: Path, names: seq<string>, kind: Option<SourceKind>)
    requires WellFormed(fs) && IsDir(fs, root) && AllPlain(names) && names != []
    requires EnsureBind(fs, root, Text(names), kind).fault.None?
    ensures HasNode(EnsureBind(fs, root, Text(names), kind).fs, root, names)
  {
    hide EnsureDirectory, Resolve, WellFormed, Text, Components;
    var last := |names| - 1;
    var parent, name := names[..last], names[last];
    assert name in names && kind.Some?;
    EnsureBindIsTarget(fs, root, names, kind.value);
    CreatedKind(fs, root, parent, name, kind.value);
    EnsureTargetResolves(fs, root, parent, name, kind.value);
    CleanParent(parent);
    EnsureDirectoryResolves(fs, root, Text(parent));
    ResolveMonotone(EnsureDirectory(fs, root, Text(parent)).fs, EnsureBind(fs, root, Text(names), kind).fs, root,
                    Text(parent));
  }

  lemma NodeStays(fs: Tree, bigger: Tree, root: Path, names: seq<string>)
    requires Extends(fs, bigger) && HasNode(fs, root, names)
    ensures HasNode(bigger, root, names)
  {
    hide Resolve, Text;
    ResolveMonotone(fs, bigger, root, Text(names[..|names| - 1]));
  }

  lemma {:induction false} BindsHaveNodes(
      fs: Tree, root: Path, binds: seq<Sandrun.Bind>, sources: Sources, k: nat, names: seq<string>)
    requires WellFormed(fs) && IsDir(fs, root) && EnsureBinds(fs, root, binds, sources).fault.None?
    requires k < |binds| && AllPlain(names) && names != [] && binds[k].target == Text(names)
    ensures HasNode(EnsureBinds(fs, root, binds, sources).fs, root, names)
    decreases |binds|
  {
    hide EnsureBind, WellFormed, Text, HasNode;
    var init, last := binds[..|binds| - 1], binds[|binds| - 1];
    var before := EnsureBinds(fs, root, init, sources);
    EnsureBindsExtends(fs, root, init, sources);
    EnsureBindExtends(before.fs, root, last.target, KindOf(sources, last.source));
    if k == |binds| - 1 {
      EnsuredHasNode(before.fs, root, names, KindOf(sources, last.source));
    } else {
      BindsHaveNodes(fs, root, init, sources, k, names);
      NodeStays(before.fs, EnsureBinds(fs, root, binds, sources).fs, root, names);
    }
  }

  lemma CgroupText()
    ensures Text(["sys", "fs", "cgroup"]) == CGROUP.target && AllPlain(["sys", "fs", "cgroup"])
  {
    hide Text;
    ThreeNames("sys", "fs", "cgroup");
    assert "/" + "sys" + "/" + "fs" + "/" + "cgroup" == "/sys/fs/cgroup";
  }

  /**
   Before anything is checked or mounted, a node has been found or made for
   the target of every declared bind and, with standard mounts, for the
   cgroup bind: an image need not have any of them.
   */
  lemma TargetsHaveNodes(fs: Tree, root: Path, c: Sandrun.Config, sources: Sources, source: string -> string)
    requires WellFormed(fs) && IsDir(fs, root)
    requires Planned(fs, root, c, sources, source).mounts.Ok?
    ensures var q := Planned(fs, root, c, sources, source).fs;
            && (c.standardMounts ==> HasNode(q, root, ["sys", "fs", "cgroup"]))
            && forall k, names ::
                 0 <= k < |c.binds| && AllPlain(names) && names != [] && c.binds[k].target == Text(names) ==>
                   HasNode(q, root, names)
  {
    hide EnsureBind, EnsureBinds, WellFormed, Text, HasNode, CheckStart, CheckTargets, PreparedDisks, Operations,
         Compared, Requested, AllPlain;
    var q := Planned(fs, root, c, sources, source).fs;
    var bound := EnsureBinds(fs, root, c.binds, sources);
    var targeted := Targeted(fs, root, c, sources);
    EnsureBindsExtends(fs, root, c.binds, sources);
    EnsureBindExtends(bound.fs, root, CGROUP.target, KindOf(sources, CGROUP.source));
    DisksExtend(targeted.fs, root, c.diskMounts, source);
    forall k, names | 0 <= k < |c.binds| && AllPlain(names) && names != [] && c.binds[k].target == Text(names)
      ensures HasNode(q, root, names)
    {
      BindsHaveNodes(fs, root, c.binds, sources, k, names);
      NodeStays(bound.fs, q, root, names);
    }
    if c.standardMounts {
      CgroupText();
      EnsuredHasNode(bound.fs, root, ["sys", "fs", "cgroup"], KindOf(sources, CGROUP.source));
      NodeStays(targeted.fs, q, root, ["sys", "fs", "cgroup"]);
    }
  }
}
