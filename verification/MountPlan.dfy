/**
 Everything sandrun decides before its first mount: the bind targets it
 creates, the check that resolved targets do not alias, and the operations in
 the order they are applied. What a bind source is (its canonical kind, if it
 exists) is an input.
 */
module MountPlan {
  import opened Wrappers
  import opened Paths
  import opened Resolver
  import opened BindTargets
  import Sandrun

  datatype PlanFault =
    | Unresolved(fault: Fault)
    | TargetIsRoot
    | TargetHasNoName
    | TargetIsNotDirectory
    | SourceMissing
    | Incompatible
    | Overlapping
    | NoCommand
    | CommandIsNotFile
    | CommandIsNotExecutable

  datatype Content = Proc | Tmpfs(mode: nat) | BoundTo(source: string, readonly: bool, recursive: bool)

  datatype Mount = Mount(target: Path, content: Content)

  /** Kinds of the bind sources that exist, by the text that names them, and the files that may be executed. */
  datatype Sources = Sources(kinds: map<string, SourceKind>, executables: set<Path>)

  /** One operation to prepare, before its target is resolved. */
  datatype Request =
    | AskProc(target: string)
    | AskTmpfs(target: string, mode: nat)
    | AskBind(bind: Sandrun.Bind, recursive: bool)
    | AskDns
  {
    function Target(): string {
      match this
      case AskProc(target) => target
      case AskTmpfs(target, _) => target
      case AskBind(bind, _) => bind.target
      case AskDns => "/etc"
    }
  }

  const SYS := Sandrun.Bind("/sys", "/sys", true)
  const CGROUP := Sandrun.Bind("/sys/fs/cgroup", "/sys/fs/cgroup", false)

  const BEFORE_CGROUP: seq<Request> :=
    [AskProc("/proc"), AskBind(Sandrun.Bind("/dev", "/dev", false), true),
     AskBind(SYS, false)]
  const AFTER_CGROUP: seq<Request> := [AskTmpfs("/tmp", 0x3FF), AskTmpfs("/run", 0x1ED), AskDns]

  // -------------------------------------------------------- specification

  function InnerPath(root: Path, resolved: Path): Result<seq<string>, PlanFault> {
    if !(root <= resolved) then Err(Unresolved(Escapes))
    else if resolved == root then Err(TargetIsRoot)
    else Ok(resolved[|root|..])
  }

  function ResolveInner(fs: Tree, root: Path, target: string): Result<seq<string>, PlanFault> {
    match Resolve(fs, root, target)
    case Err(e) => Err(Unresolved(e))
    case Ok(p) => InnerPath(root, p)
  }

  /** The paths inside the root that a request will cover. */
  function Covered(fs: Tree, root: Path, r: Request): Result<seq<seq<string>>, PlanFault> {
    match ResolveInner(fs, root, r.Target())
    case Err(e) => Err(e)
    case Ok(inner) => Ok(if r.AskDns? then [inner + ["resolv.conf"], inner + ["hosts"]] else [inner])
  }

  /** Answers of several requests in a row; the first error is the answer. */
  function Collect<T>(answers: seq<Result<seq<T>, PlanFault>>): Result<seq<T>, PlanFault> {
    if answers == [] then Ok([])
    else match Collect(answers[..|answers| - 1])
      case Err(e) => Err(e)
      case Ok(before) =>
        match answers[|answers| - 1]
        case Err(e) => Err(e)
        case Ok(last) => Ok(before + last)
  }

  /** What every request of a list is answered, one by one. */
  function Each<T>(rs: seq<Request>, answer: Request -> Result<seq<T>, PlanFault>)
    : (answers: seq<Result<seq<T>, PlanFault>>)
    ensures |answers| == |rs|
  {
    seq(|rs|, i requires 0 <= i < |rs| => answer(rs[i]))
  }

  function AllOf<T>(rs: seq<Request>, answer: Request -> Result<seq<T>, PlanFault>): Result<seq<T>, PlanFault> {
    Collect(Each(rs, answer))
  }

  function CoveredIn(fs: Tree, root: Path): Request -> Result<seq<seq<string>>, PlanFault> {
    r => Covered(fs, root, r)
  }

  function AllCovered(fs: Tree, root: Path, rs: seq<Request>): Result<seq<seq<string>>, PlanFault> {
    AllOf(rs, CoveredIn(fs, root))
  }

  function Binds(binds: seq<Sandrun.Bind>): (rs: seq<Request>)
    ensures |rs| == |binds|
  {
    seq(|binds|, i requires 0 <= i < |binds| => AskBind(binds[i], false))
  }

  function Tmpfses(targets: seq<string>): (rs: seq<Request>)
    ensures |rs| == |targets|
  {
    seq(|targets|, i requires 0 <= i < |targets| => AskTmpfs(targets[i], 0x1ED))
  }

  /** Each disk mount is an ordinary bind of its own writable directory. */
  function DiskBinds(disks: seq<string>, source: string -> string): (rs: seq<Request>)
    ensures |rs| == |disks|
  {
    seq(|disks|, i requires 0 <= i < |disks| => AskBind(Sandrun.Bind(source(disks[i]), disks[i], false), false))
  }

  function Standard(c: Sandrun.Config): seq<Request> {
    if c.standardMounts then BEFORE_CGROUP + AFTER_CGROUP else []
  }

  /** The targets `validate_resolved_mount_targets` compares, in its order. */
  function Compared(c: Sandrun.Config, source: string -> string): seq<Request> {
    Standard(c) + DiskBinds(c.diskMounts, source) + Binds(c.binds) + Tmpfses(c.tmpfs)
  }

  function Texts(inners: seq<seq<string>>): (texts: seq<string>)
    ensures |texts| == |inners|
  {
    seq(|inners|, i requires 0 <= i < |inners| => Text(inners[i]))
  }

  function CheckTargets(fs: Tree, root: Path, rs: seq<Request>): Option<PlanFault> {
    match AllCovered(fs, root, rs)
    case Err(e) => Some(e)
    case Ok(inners) => if Sandrun.ClashFrom(Texts(inners), 0).Some? then Some(Overlapping) else None
  }

  function KindOf(sources: Sources, source: string): Option<SourceKind> {
    if source in sources.kinds then Some(sources.kinds[source]) else None
  }

  /** `prepare_bind_with_recursion`. */
  function PreparedBind(fs: Tree, root: Path, b: Sandrun.Bind, recursive: bool, kind: Option<SourceKind>)
    : Result<Mount, PlanFault>
  {
    if kind.None? then Err(SourceMissing)
    else match Resolve(fs, root, b.target)
      case Err(e) => Err(Unresolved(e))
      case Ok(p) =>
        if p !in fs then Err(Unresolved(NotFound))
        else if kind.value.DirSource? != fs[p].Dir? || kind.value.FileSource? != fs[p].File? then Err(Incompatible)
        else Ok(Mount(p, BoundTo(b.source, b.readonly, recursive && kind.value.DirSource?)))
  }

  /** `resolve_directory`. */
  function ResolveDirectory(fs: Tree, root: Path, target: string): Result<Path, PlanFault> {
    match Resolve(fs, root, target)
    case Err(e) => Err(Unresolved(e))
    case Ok(p) => if IsDir(fs, p) then Ok(p) else Err(TargetIsNotDirectory)
  }

  function Operation(fs: Tree, root: Path, r: Request, sources: Sources): Result<seq<Mount>, PlanFault> {
    match r
    case AskBind(b, recursive) => (
      match PreparedBind(fs, root, b, recursive, KindOf(sources, b.source))
      case Err(e) => Err(e)
      case Ok(m) => Ok([m]))
    case AskDns => (
      match ResolveDirectory(fs, root, "/etc")
      case Err(e) => Err(e)
      case Ok(etc) =>
        if KindOf(sources, "/etc/resolv.conf") != Some(FileSource) || KindOf(sources, "/etc/hosts") != Some(FileSource)
        then Err(SourceMissing)
        else Ok([Mount(etc + ["resolv.conf"], BoundTo("/etc/resolv.conf", true, false)),
                 Mount(etc + ["hosts"], BoundTo("/etc/hosts", true, false))]))
    case AskProc(target) => OneMount(ResolveDirectory(fs, root, target), Proc)
    case AskTmpfs(target, mode) => OneMount(ResolveDirectory(fs, root, target), Tmpfs(mode))
  }

  function OneMount(p: Result<Path, PlanFault>, content: Content): Result<seq<Mount>, PlanFault> {
    match p
    case Err(e) => Err(e)
    case Ok(target) => Ok([Mount(target, content)])
  }

  function OperationIn(fs: Tree, root: Path, sources: Sources): Request -> Result<seq<Mount>, PlanFault> {
    r => Operation(fs, root, r, sources)
  }

  function Operations(fs: Tree, root: Path, rs: seq<Request>, sources: Sources): Result<seq<Mount>, PlanFault> {
    AllOf(rs, OperationIn(fs, root, sources))
  }

  /** The operations of `prepare_mounts`, in order. */
  function Requested(c: Sandrun.Config): seq<Request> {
    (if c.standardMounts then BEFORE_CGROUP + [AskBind(CGROUP, true)] + AFTER_CGROUP else [])
    + Binds(c.binds) + Tmpfses(c.tmpfs)
  }

  datatype Ensured = Ensured(fs: Tree, fault: Option<PlanFault>)

  /** `ensure_bind_target` with the parent and name of a clean target. */
  function EnsureBind(fs: Tree, root: Path, target: string, kind: Option<SourceKind>): Ensured {
    var names := Names(Components(target));
    if kind.None? then Ensured(fs, Some(SourceMissing))
    else if names == [] then Ensured(fs, Some(TargetHasNoName))
    else
      var made := EnsureTarget(fs, root, Text(names[..|names| - 1]), names[|names| - 1], kind.value);
      Ensured(made.fs, if made.outcome.Ok? then None else Some(Unresolved(made.outcome.error)))
  }

  function EnsureBinds(fs: Tree, root: Path, binds: seq<Sandrun.Bind>, sources: Sources): Ensured {
    if binds == [] then Ensured(fs, None)
    else
      var before, last := EnsureBinds(fs, root, binds[..|binds| - 1], sources), binds[|binds| - 1];
      if before.fault.Some? then before else EnsureBind(before.fs, root, last.target, KindOf(sources, last.source))
  }

  datatype Disks = Disks(fs: Tree, mounts: Result<seq<Mount>, PlanFault>)

  /** `prepare_disk_binds`: create one target, prepare its bind, then the next. */
  function PreparedDisks(fs: Tree, root: Path, disks: seq<string>, source: string -> string): Disks {
    if disks == [] then Disks(fs, Ok([]))
    else
      var before, target := PreparedDisks(fs, root, disks[..|disks| - 1], source), disks[|disks| - 1];
      if before.mounts.Err? then before
      else
        var made := EnsureBind(before.fs, root, target, Some(DirSource));
        if made.fault.Some? then Disks(made.fs, Err(made.fault.value))
        else match PreparedBind(made.fs, root, Sandrun.Bind(source(target), target, false), false, Some(DirSource))
          case Err(e) => Disks(made.fs, Err(e))
          case Ok(m) => Disks(made.fs, Ok(before.mounts.value + [m]))
  }

  datatype Plan = Plan(fs: Tree, mounts: Result<seq<Mount>, PlanFault>)

  /** The file system once every bind target was created, or the fault met on the way. */
  function Targeted(fs: Tree, root: Path, c: Sandrun.Config, sources: Sources): Ensured {
    var bound := EnsureBinds(fs, root, c.binds, sources);
    if bound.fault.Some? || !c.standardMounts then bound
    else EnsureBind(bound.fs, root, CGROUP.target, KindOf(sources, CGROUP.source))
  }

  /** `prepare_workdir`, then `prepare_executable`. */
  function CheckStart(fs: Tree, root: Path, c: Sandrun.Config, executables: set<Path>): Option<PlanFault> {
    var workdir := ResolveDirectory(fs, root, c.workdir);
    if workdir.Err? then Some(workdir.error)
    else if c.command == [] then Some(NoCommand)
    else match Resolve(fs, root, c.command[0])
      case Err(e) => Some(Unresolved(e))
      case Ok(p) =>
        if p !in fs || !fs[p].File? then Some(CommandIsNotFile)
        else if p !in executables then Some(CommandIsNotExecutable)
        else None
  }

  function Planned(fs: Tree, root: Path, c: Sandrun.Config, sources: Sources, source: string -> string): Plan {
    var targeted := Targeted(fs, root, c, sources);
    if targeted.fault.Some? then Plan(targeted.fs, Err(targeted.fault.value))
    else
      var disks := PreparedDisks(targeted.fs, root, c.diskMounts, source);
      if disks.mounts.Err? then Plan(disks.fs, disks.mounts)
      else
        var unfit := CheckStart(disks.fs, root, c, sources.executables);
        var clash := CheckTargets(disks.fs, root, Compared(c, source));
        if unfit.Some? then Plan(disks.fs, Err(unfit.value))
        else if clash.Some? then Plan(disks.fs, Err(clash.value))
        else match Operations(disks.fs, root, Requested(c), sources)
          case Err(e) => Plan(disks.fs, Err(e))
          case Ok(ms) => Plan(disks.fs, Ok(ms + disks.mounts.value))
  }

  // ------------------------------------------------------- the algorithms

  /** `inner_path` of a resolved target. */
  method ResolveInnerTarget(fs: Tree, root: Path, target: string) returns (r: Result<seq<string>, PlanFault>)
    ensures r == ResolveInner(fs, root, target)
  {
    var resolved, _ := ResolveTarget(fs, root, target);
    match resolved {
      case Err(e) => return Err(Unresolved(e));
      case Ok(p) => return InnerPath(root, p);
    }
  }

  /** `validate_resolved_mount_targets`. */
  method ValidateResolvedMountTargets(fs: Tree, root: Path, rs: seq<Request>) returns (fault: Option<PlanFault>)
    ensures fault == CheckTargets(fs, root, rs)
  {
    var targets: seq<seq<string>> := [];
    ghost var answers := Each(rs, CoveredIn(fs, root));
    for i := 0 to |rs|
      invariant Collect(answers[..i]) == Ok(targets)
    {
      assert answers[..i + 1][..i] == answers[..i];
      var covered := CoveredBy(fs, root, rs[i]);
      if covered.Err? {
        FirstFault(answers, i);
        return Some(covered.error);
      }
      targets := targets + covered.value;
    }
    assert answers[..|rs|] == answers;
    var clash := Sandrun.ValidateTargetPaths(Texts(targets));
    return if clash.Some? then Some(Overlapping) else None;
  }

  method CoveredBy(fs: Tree, root: Path, r: Request) returns (covered: Result<seq<seq<string>>, PlanFault>)
    ensures covered == Covered(fs, root, r)
  {
    var inner := ResolveInnerTarget(fs, root, r.Target());
    if inner.Err? {
      return Err(inner.error);
    }
    return Ok(if r.AskDns? then [inner.value + ["resolv.conf"], inner.value + ["hosts"]] else [inner.value]);
  }

  lemma {:induction false} FirstFault<T>(answers: seq<Result<seq<T>, PlanFault>>, i: nat)
    requires i < |answers| && Collect(answers[..i]).Ok? && answers[i].Err?
    ensures Collect(answers) == Err(answers[i].error)
    decreases |answers|
  {
    var init := answers[..|answers| - 1];
    if i < |answers| - 1 {
      assert init[..i] == answers[..i];
      FirstFault(init, i);
    }
  }

  /** `prepare_mounts`. */
  method PrepareMounts(fs: Tree, root: Path, rs: seq<Request>, sources: Sources)
    returns (r: Result<seq<Mount>, PlanFault>)
    ensures r == Operations(fs, root, rs, sources)
  {
    var operations: seq<Mount> := [];
    ghost var answers := Each(rs, OperationIn(fs, root, sources));
    for i := 0 to |rs|
      invariant Collect(answers[..i]) == Ok(operations)
    {
      assert answers[..i + 1][..i] == answers[..i];
      var next := Operation(fs, root, rs[i], sources);
      if next.Err? {
        FirstFault(answers, i);
        return Err(next.error);
      }
      operations := operations + next.value;
    }
    assert answers[..|rs|] == answers;
    return Ok(operations);
  }

  method EnsureOne(tree: FileTree, root: Path, target: string, kind: Option<SourceKind>)
    returns (fault: Option<PlanFault>)
    modifies tree
    ensures Ensured(tree.nodes, fault) == EnsureBind(old(tree.nodes), root, target, kind)
  {
    var names := Names(Components(target));
    if kind.None? {
      return Some(SourceMissing);
    }
    if names == [] {
      return Some(TargetHasNoName);
    }
    var r := tree.EnsureBindTarget(root, Text(names[..|names| - 1]), names[|names| - 1], kind.value);
    return if r.Ok? then None else Some(Unresolved(r.error));
  }

  /** `prepare_bind_targets`. */
  method PrepareBindTargets(tree: FileTree, root: Path, binds: seq<Sandrun.Bind>, sources: Sources)
    returns (fault: Option<PlanFault>)
    modifies tree
    ensures Ensured(tree.nodes, fault) == EnsureBinds(old(tree.nodes), root, binds, sources)
  {
    fault := None;
    for i := 0 to |binds|
      invariant fault.None?
      invariant Ensured(tree.nodes, None) == EnsureBinds(old(tree.nodes), root, binds[..i], sources)
    {
      assert binds[..i + 1][..i] == binds[..i];
      fault := EnsureOne(tree, root, binds[i].target, KindOf(sources, binds[i].source));
      if fault.Some? {
        EnsureStops(old(tree.nodes), root, binds, sources, i + 1);
        return;
      }
    }
    assert binds[..|binds|] == binds;
  }

  lemma {:induction false} EnsureStops(fs: Tree, root: Path, binds: seq<Sandrun.Bind>, sources: Sources, i: nat)
    requires i <= |binds| && EnsureBinds(fs, root, binds[..i], sources).fault.Some?
    ensures EnsureBinds(fs, root, binds, sources) == EnsureBinds(fs, root, binds[..i], sources)
    decreases |binds|
  {
    if i == |binds| {
      assert binds[..i] == binds;
    } else {
      assert binds[..|binds| - 1][..i] == binds[..i];
      EnsureStops(fs, root, binds[..|binds| - 1], sources, i);
    }
  }

  /** `prepare_disk_binds`. */
  method PrepareDiskBinds(tree: FileTree, root: Path, disks: seq<string>, source: string -> string)
    returns (r: Result<seq<Mount>, PlanFault>)
    modifies tree
    ensures Disks(tree.nodes, r) == PreparedDisks(old(tree.nodes), root, disks, source)
  {
    var result: seq<Mount> := [];
    for i := 0 to |disks|
      invariant Disks(tree.nodes, Ok(result)) == PreparedDisks(old(tree.nodes), root, disks[..i], source)
    {
      assert disks[..i + 1][..i] == disks[..i];
      var bind := Sandrun.Bind(source(disks[i]), disks[i], false);
      var fault := EnsureOne(tree, root, bind.target, Some(DirSource));
      if fault.Some? {
        DisksStop(old(tree.nodes), root, disks, source, i + 1);
        return Err(fault.value);
      }
      var m := PreparedBind(tree.nodes, root, bind, false, Some(DirSource));
      if m.Err? {
        DisksStop(old(tree.nodes), root, disks, source, i + 1);
        return Err(m.error);
      }
      result := result + [m.value];
    }
    assert disks[..|disks|] == disks;
    return Ok(result);
  }

  lemma {:induction false} DisksStop(fs: Tree, root: Path, disks: seq<string>, source: string -> string, i: nat)
    requires i <= |disks| && PreparedDisks(fs, root, disks[..i], source).mounts.Err?
    ensures PreparedDisks(fs, root, disks, source) == PreparedDisks(fs, root, disks[..i], source)
    decreases |disks|
  {
    if i == |disks| {
      assert disks[..i] == disks;
    } else {
      assert disks[..|disks| - 1][..i] == disks[..i];
      DisksStop(fs, root, disks[..|disks| - 1], source, i);
    }
  }

  /** `prepare_workdir` and `prepare_executable`; an empty command is excluded by the parser. */
  method PrepareStart(fs: Tree, root: Path, c: Sandrun.Config, executables: set<Path>)
    returns (fault: Option<PlanFault>)
    ensures fault == CheckStart(fs, root, c, executables)
  {
    var workdir, _ := ResolveTarget(fs, root, c.workdir);
    if workdir.Err? {
      return Some(Unresolved(workdir.error));
    }
    if !IsDir(fs, workdir.value) {
      return Some(TargetIsNotDirectory);
    }
    if c.command == [] {
      return Some(NoCommand);
    }
    var executable, _ := ResolveTarget(fs, root, c.command[0]);
    if executable.Err? {
      return Some(Unresolved(executable.error));
    }
    if executable.value !in fs || !fs[executable.value].File? {
      return Some(CommandIsNotFile);
    }
    return if executable.value in executables then None else Some(CommandIsNotExecutable);
  }

  /** The part of `run` between mounting the overlay and applying the operations. */
  method Prepare(tree: FileTree, root: Path, c: Sandrun.Config, sources: Sources, source: string -> string)
    returns (r: Result<seq<Mount>, PlanFault>)
    modifies tree
    ensures Plan(tree.nodes, r) == Planned(old(tree.nodes), root, c, sources, source)
  {
    hide EnsureBinds, PreparedDisks, Operations, CheckTargets, CheckStart, EnsureBind, Compared, Requested;
    var fault := PrepareBindTargets(tree, root, c.binds, sources);
    if fault.None? && c.standardMounts {
      fault := EnsureOne(tree, root, CGROUP.target, KindOf(sources, CGROUP.source));
    }
    if fault.Some? {
      return Err(fault.value);
    }
    var disks := PrepareDiskBinds(tree, root, c.diskMounts, source);
    if disks.Err? {
      return disks;
    }
    fault := PrepareStart(tree.nodes, root, c, sources.executables);
    if fault.Some? {
      return Err(fault.value);
    }
    fault := ValidateResolvedMountTargets(tree.nodes, root, Compared(c, source));
    if fault.Some? {
      return Err(fault.value);
    }
    var operations := PrepareMounts(tree.nodes, root, Requested(c), sources);
    if operations.Err? {
      return operations;
    }
    return Ok(operations.value + disks.value);
  }
}
