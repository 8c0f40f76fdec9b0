/**
 campd's declaration: its validator, and the launch plan it becomes.
 Text is held as bytes, one `char` each.
 */
module Campd {
  import opened Wrappers
  import opened Paths
  import OriginForm
  import Sandrun

  const MAX_ENCODED_BYTES: nat := 120 * 1024
  const MAX_STARTUP_BUDGET_MS: nat := 25_000
  const AGS_READY_TIMEOUT_MS: nat := 30_000
  const CONTROL_PORT: nat := 49_982
  const SPEC_ENVIRONMENT: string := "SANDCAMP_SPEC"
  const U64_MAX: nat := 0xFFFF_FFFF_FFFF_FFFF

  datatype Kind = Service | RunToCompletion

  datatype Probe = Probe(
    path: string, port: nat, startupTimeoutMs: nat, periodMs: nat, timeoutMs: nat,
    failureThreshold: Sandrun.u32, successThreshold: Sandrun.u32)

  /** The fields a sidecar and a main process share. */
  datatype Process = Process(
    name: string,
    kind: Kind,
    command: seq<string>,
    env: map<string, string>,
    workdir: string,
    user: Option<Sandrun.User>,
    probe: Option<Probe>,
    completionTimeoutMs: Option<nat>)

  datatype Sidecar = Sidecar(
    process: Process,
    rootfs: string,
    overlayDevice: Option<string>,
    standardMounts: bool,
    diskMounts: seq<string>,
    binds: seq<Sandrun.Bind>)

  datatype Spec = Spec(version: nat, sidecars: seq<Sidecar>, main: seq<Process>)

  // --------------------------------------------------- what is accepted

  predicate ValidPath(s: string, allowRoot: bool) {
    '\0' !in s && CleanAbsolute(s, allowRoot)
  }

  predicate IsAlphanumeric(c: char) {
    Sandrun.IsAlpha(c) || Sandrun.IsDigit(c)
  }

  predicate ValidName(s: string) {
    0 < |s| <= 64 && IsAlphanumeric(s[0]) && forall c :: c in s ==> Sandrun.IsNameChar(c)
  }

  predicate ValidEnvironmentName(s: string) {
    s != "" && (Sandrun.IsAlpha(s[0]) || s[0] == '_')
    && forall c :: c in s[1..] ==> IsAlphanumeric(c) || c == '_'
  }

  predicate ValidEnvironment(env: map<string, string>) {
    forall key :: key in env ==>
      ValidEnvironmentName(key) && '\0' !in env[key] && key != SPEC_ENVIRONMENT
  }

  predicate ValidUser(user: Sandrun.User) {
    match user
    case Named(name) => Sandrun.ValidUserName(name)
    case Numeric(uid, gid) => uid != Sandrun.U32_MAX && gid != Sandrun.U32_MAX
  }

  ghost predicate ValidProbe(p: Probe) {
    && OriginForm.IsOriginForm(p.path)
    && p.port != 0 && p.port != CONTROL_PORT
    && 1_000 <= p.startupTimeoutMs <= AGS_READY_TIMEOUT_MS
    && 100 <= p.periodMs <= AGS_READY_TIMEOUT_MS
    && 100 <= p.timeoutMs <= AGS_READY_TIMEOUT_MS
    && p.timeoutMs <= p.startupTimeoutMs
    && p.failureThreshold != 0 && p.successThreshold != 0
  }

  ghost predicate ValidLifecycle(p: Process) {
    match p.kind
    case Service => p.completionTimeoutMs.None? && (p.probe.Some? ==> ValidProbe(p.probe.value))
    case RunToCompletion =>
      p.probe.None? && p.completionTimeoutMs.Some?
      && 100 <= p.completionTimeoutMs.value <= AGS_READY_TIMEOUT_MS
  }

  predicate ValidCommand(command: seq<string>) {
    command != [] && ValidPath(command[0], false) && forall argument :: argument in command ==> '\0' !in argument
  }

  ghost predicate ValidProcess(p: Process) {
    && ValidName(p.name)
    && ValidCommand(p.command)
    && (p.workdir == "" || ValidPath(p.workdir, true))
    && ValidEnvironment(p.env)
    && ValidLifecycle(p)
    && (p.user.Some? ==> ValidUser(p.user.value))
  }

  function StandardTargets(s: Sidecar): seq<string> {
    if s.standardMounts then Sandrun.STANDARD_TARGETS else []
  }

  /** Standard targets first, then disk mounts, then binds, in declaration order. */
  function AllTargets(s: Sidecar): seq<string> {
    StandardTargets(s) + s.diskMounts + Sandrun.BindTargets(s.binds)
  }

  /** No target declared from index `from` on overlaps an earlier one. */
  ghost predicate ApartFrom(targets: seq<string>, from: nat) {
    forall i, j :: 0 <= j < i < |targets| && from <= i ==> !ComponentsOverlap(targets[i], targets[j])
  }

  ghost predicate ValidSidecar(s: Sidecar) {
    && ValidPath(s.rootfs, false)
    && (s.overlayDevice.Some? ==> ValidPath(s.overlayDevice.value, false))
    && (forall t :: t in s.diskMounts ==> ValidPath(t, false))
    && (forall b :: b in s.binds ==> ValidPath(b.source, false) && ValidPath(b.target, false))
    && ApartFrom(AllTargets(s), |StandardTargets(s)|)
  }

  /** Milliseconds a process may hold up the ones declared after it. */
  function StartupCost(p: Process): nat {
    match p.kind
    case Service => if p.probe.Some? then p.probe.value.startupTimeoutMs else 0
    case RunToCompletion => if p.completionTimeoutMs.Some? then p.completionTimeoutMs.value else 0
  }

  function StartupBudget(ps: seq<Process>): nat {
    if ps == [] then 0 else StartupBudget(ps[..|ps| - 1]) + StartupCost(ps[|ps| - 1])
  }

  function Services(ps: seq<Process>): nat {
    if ps == [] then 0 else Services(ps[..|ps| - 1]) + (if ps[|ps| - 1].kind.Service? then 1 else 0)
  }

  function SidecarProcesses(sidecars: seq<Sidecar>): (ps: seq<Process>)
    ensures |ps| == |sidecars|
  {
    seq(|sidecars|, i requires 0 <= i < |sidecars| => sidecars[i].process)
  }

  /** The order of launch: sidecars as declared, then main processes as declared. */
  function Processes(spec: Spec): seq<Process> {
    SidecarProcesses(spec.sidecars) + spec.main
  }

  ghost predicate DistinctNames(ps: seq<Process>) {
    forall i, j :: 0 <= i < j < |ps| ==> ps[i].name != ps[j].name
  }

  ghost predicate Accepts(spec: Spec) {
    && (spec.version == 2 || spec.version == 3)
    && Processes(spec) != []
    && (forall p :: p in Processes(spec) ==> ValidProcess(p))
    && (forall s :: s in spec.sidecars ==> ValidSidecar(s))
    && DistinctNames(Processes(spec))
    && Services(Processes(spec)) > 0
    && StartupBudget(Processes(spec)) <= MAX_STARTUP_BUDGET_MS
  }

  // ---------------------------------------------------------- validator

  /** What `validate` carries from one process to the next. */
  class Tally {
    var names: set<string>
    var budgetMs: nat
    var services: nat

    constructor ()
      ensures names == {} && budgetMs == 0 && services == 0
    {
      names, budgetMs, services := {}, 0, 0;
    }

    /** `validate_common` and `validate_user`. */
    method ValidateCommon(p: Process) returns (ok: bool)
      modifies this
      ensures ok <==> ValidProcess(p) && p.name !in old(names) && old(budgetMs) + StartupCost(p) <= U64_MAX
      ensures ok ==> names == old(names) + {p.name}
      ensures ok ==> budgetMs == old(budgetMs) + StartupCost(p)
      ensures ok ==> services == old(services) + if p.kind.Service? then 1 else 0
    {
      if !ValidName(p.name) || p.name in names {
        return false;
      }
      names := names + {p.name};
      if !ValidCommand(p.command) || (p.workdir != "" && !ValidPath(p.workdir, true)) {
        return false;
      }
      if !ValidEnvironment(p.env) || (p.user.Some? && !ValidUser(p.user.value)) {
        return false;
      }
      match p.kind {
        case Service =>
          services := services + 1;
          if p.completionTimeoutMs.Some? {
            return false;
          }
          if p.probe.Some? {
            var probeOk := ValidateProbe(p.probe.value);
            if !probeOk {
              return false;
            }
            ok := AddStartupBudget(p.probe.value.startupTimeoutMs);
            return;
          }
          return budgetMs <= U64_MAX;
        case RunToCompletion =>
          if p.probe.Some? || p.completionTimeoutMs.None?
             || !(100 <= p.completionTimeoutMs.value <= AGS_READY_TIMEOUT_MS) {
            return false;
          }
          ok := AddStartupBudget(p.completionTimeoutMs.value);
      }
    }

    /** `add_startup_budget`: checked addition in a `u64`. */
    method AddStartupBudget(duration: nat) returns (ok: bool)
      modifies this`budgetMs
      ensures ok <==> old(budgetMs) + duration <= U64_MAX
      ensures budgetMs == if ok then old(budgetMs) + duration else old(budgetMs)
    {
      ok := budgetMs + duration <= U64_MAX;
      if ok {
        budgetMs := budgetMs + duration;
      }
    }
  }

  /** `validate_probe`. */
  method ValidateProbe(p: Probe) returns (ok: bool)
    ensures ok <==> ValidProbe(p)
  {
    var pathOk := OriginForm.CampdScan(p.path);
    return pathOk
      && p.port != 0 && p.port != CONTROL_PORT
      && 1_000 <= p.startupTimeoutMs <= AGS_READY_TIMEOUT_MS
      && 100 <= p.periodMs <= AGS_READY_TIMEOUT_MS
      && 100 <= p.timeoutMs <= AGS_READY_TIMEOUT_MS
      && p.timeoutMs <= p.startupTimeoutMs
      && p.failureThreshold != 0 && p.successThreshold != 0;
  }

  /** The inner scan of one new mount target against the earlier ones. */
  method OverlapsNone(target: string, previous: seq<string>) returns (ok: bool)
    ensures ok <==> forall j :: 0 <= j < |previous| ==> !ComponentsOverlap(target, previous[j])
  {
    hide Components;
    for k := 0 to |previous|
      invariant forall j :: 0 <= j < k ==> !ComponentsOverlap(target, previous[j])
    {
      if StartsWith(target, previous[k]) || StartsWith(previous[k], target) {
        return false;
      }
    }
    return true;
  }

  /** The loop over disk mounts. */
  method AppendDisks(base: seq<string>, disks: seq<string>) returns (ok: bool)
    ensures ok <==> (forall t :: t in disks ==> ValidPath(t, false)) && ApartFrom(base + disks, |base|)
  {
    hide Components, ValidPath;
    var targets := base;
    for i := 0 to |disks|
      invariant targets == base + disks[..i]
      invariant forall t :: t in disks[..i] ==> ValidPath(t, false)
      invariant ApartFrom(targets, |base|)
    {
      if !ValidPath(disks[i], false) {
        return false;
      }
      var apart := OverlapsNone(disks[i], targets);
      if !apart {
        NotApart(targets, disks[i], disks[i + 1..], |base|);
        assert targets + [disks[i]] + disks[i + 1..] == base + disks;
        return false;
      }
      ApartSnoc(targets, disks[i], |base|);
      targets := targets + [disks[i]];
    }
    assert disks[..|disks|] == disks;
    return true;
  }

  /** The loop over binds. */
  method AppendBinds(base: seq<string>, binds: seq<Sandrun.Bind>) returns (ok: bool)
    ensures ok <==> (forall b :: b in binds ==> ValidPath(b.source, false) && ValidPath(b.target, false))
                    && ApartFrom(base + Sandrun.BindTargets(binds), |base|)
  {
    hide Components, ValidPath;
    ghost var mounted := Sandrun.BindTargets(binds);
    var targets := base;
    for i := 0 to |binds|
      invariant targets == base + mounted[..i]
      invariant forall b :: b in binds[..i] ==> ValidPath(b.source, false) && ValidPath(b.target, false)
      invariant ApartFrom(targets, |base|)
    {
      var target := binds[i].target;
      if !ValidPath(binds[i].source, false) || !ValidPath(target, false) {
        return false;
      }
      var apart := OverlapsNone(target, targets);
      if !apart {
        NotApart(targets, target, mounted[i + 1..], |base|);
        assert targets + [target] + mounted[i + 1..] == base + mounted;
        return false;
      }
      ApartSnoc(targets, target, |base|);
      targets := targets + [target];
    }
    assert mounted[..|binds|] == mounted;
    return true;
  }

  /** The sidecar-only checks of `validate`. */
  method ValidateSidecar(s: Sidecar) returns (ok: bool)
    ensures ok <==> ValidSidecar(s)
  {
    hide Components, ValidPath;
    ApartInTwo(StandardTargets(s), s.diskMounts, Sandrun.BindTargets(s.binds));
    if !ValidPath(s.rootfs, false) || (s.overlayDevice.Some? && !ValidPath(s.overlayDevice.value, false)) {
      return false;
    }
    var disksOk := AppendDisks(StandardTargets(s), s.diskMounts);
    if !disksOk {
      return false;
    }
    ok := AppendBinds(StandardTargets(s) + s.diskMounts, s.binds);
  }

  lemma ApartInTwo(base: seq<string>, first: seq<string>, second: seq<string>)
    ensures ApartFrom(base + first + second, |base|)
            <==> ApartFrom(base + first, |base|) && ApartFrom(base + first + second, |base + first|)
  {
    var part, all := base + first, base + first + second;
    if ApartFrom(all, |base|) {
      forall i, j | 0 <= j < i < |part| && |base| <= i
        ensures !ComponentsOverlap(part[i], part[j])
      {
        assert all[i] == part[i] && all[j] == part[j];
      }
    }
    if ApartFrom(part, |base|) && ApartFrom(all, |part|) {
      forall i, j | 0 <= j < i < |all| && |base| <= i
        ensures !ComponentsOverlap(all[i], all[j])
      {
        if i < |part| {
          assert all[i] == part[i] && all[j] == part[j];
        }
      }
    }
  }

  lemma NotApart(targets: seq<string>, target: string, more: seq<string>, from: nat)
    requires from <= |targets|
    requires exists j :: 0 <= j < |targets| && ComponentsOverlap(target, targets[j])
    ensures !ApartFrom(targets + [target] + more, from)
  {
    var j :| 0 <= j < |targets| && ComponentsOverlap(target, targets[j]);
    var all := targets + [target] + more;
    assert all[|targets|] == target && all[j] == targets[j];
  }

  lemma ApartSnoc(targets: seq<string>, target: string, from: nat)
    requires ApartFrom(targets, from)
    requires forall j :: 0 <= j < |targets| ==> !ComponentsOverlap(target, targets[j])
    ensures ApartFrom(targets + [target], from)
  {
  }

  function NamesOf(ps: seq<Process>): set<string> {
    set p | p in ps :: p.name
  }

  /** Everything `validate` knows after the first `n` processes. */
  ghost predicate TalliedSoFar(ps: seq<Process>, names: set<string>, budget: nat, services: nat) {
    && (forall p :: p in ps ==> ValidProcess(p))
    && DistinctNames(ps)
    && names == NamesOf(ps)
    && budget == StartupBudget(ps)
    && services == Services(ps)
  }

  lemma TallySnoc(ps: seq<Process>, p: Process, names: set<string>, budget: nat, services: nat)
    requires TalliedSoFar(ps, names, budget, services)
    requires ValidProcess(p) && p.name !in names
    ensures TalliedSoFar(ps + [p], names + {p.name}, budget + StartupCost(p),
                         services + if p.kind.Service? then 1 else 0)
  {
    var more := ps + [p];
    assert more[..|more| - 1] == ps;
    forall i, j | 0 <= i < j < |more|
      ensures more[i].name != more[j].name
    {
      if j == |ps| {
        assert ps[i] in ps;
      }
    }
    assert NamesOf(more) == NamesOf(ps) + {p.name} by {
      assert forall q :: q in more <==> q in ps || q == p;
    }
  }

  /** A process the tally refuses makes the whole declaration unacceptable. */
  lemma Refused(spec: Spec, n: nat, names: set<string>, budget: nat, services: nat)
    requires n < |Processes(spec)|
    requires TalliedSoFar(Processes(spec)[..n], names, budget, services)
    requires var p := Processes(spec)[n];
             !(ValidProcess(p) && p.name !in names && budget + StartupCost(p) <= U64_MAX)
    ensures !Accepts(spec)
  {
    hide ValidProcess, ValidSidecar;
    var all := Processes(spec);
    var p := all[n];
    if p.name in names {
      var q :| q in all[..n] && q.name == p.name;
      var i :| 0 <= i < n && all[i] == q;
      assert !DistinctNames(all);
    } else if ValidProcess(p) {
      assert all[..n + 1][..n] == all[..n];
      BudgetGrows(all, n + 1);
    } else {
      assert p in all;
    }
  }

  lemma {:induction false} BudgetGrows(ps: seq<Process>, n: nat)
    requires n <= |ps|
    ensures StartupBudget(ps[..n]) <= StartupBudget(ps)
    decreases |ps|
  {
    if n == |ps| {
      assert ps[..n] == ps;
    } else {
      var short := ps[..|ps| - 1];
      assert short[..n] == ps[..n];
      BudgetGrows(short, n);
    }
  }

  /** `validate`. */
  method Validate(spec: Spec) returns (ok: bool)
    ensures ok <==> Accepts(spec)
  {
    if spec.version != 2 && spec.version != 3 {
      return false;
    }
    if |spec.sidecars| + |spec.main| == 0 {
      return false;
    }
    var tally := new Tally();
    ok := ValidateSidecars(spec, tally);
    AllSidecarsValidMeaning(spec.sidecars);
    if ok {
      ok := ValidateMain(spec, tally);
    }
    if ok {
      ok := tally.services != 0 && tally.budgetMs <= MAX_STARTUP_BUDGET_MS;
    }
  }

  /** `ValidSidecar` of each, unfolded one at a time. */
  ghost predicate AllSidecarsValid(sidecars: seq<Sidecar>) {
    sidecars == []
    || (AllSidecarsValid(sidecars[..|sidecars| - 1]) && ValidSidecar(sidecars[|sidecars| - 1]))
  }

  lemma {:induction false} AllSidecarsValidMeaning(sidecars: seq<Sidecar>)
    ensures AllSidecarsValid(sidecars) ==> forall s :: s in sidecars ==> ValidSidecar(s)
    decreases |sidecars|
  {
    if sidecars != [] {
      var init, last := sidecars[..|sidecars| - 1], sidecars[|sidecars| - 1];
      AllSidecarsValidMeaning(init);
      assert forall s :: s in sidecars <==> s in init || s == last;
    }
  }

  /** The first loop of `validate`. */
  method ValidateSidecars(spec: Spec, tally: Tally) returns (ok: bool)
    requires TalliedSoFar([], tally.names, tally.budgetMs, tally.services)
    modifies tally
    ensures ok ==> TalliedSoFar(SidecarProcesses(spec.sidecars), tally.names, tally.budgetMs, tally.services)
    ensures ok ==> AllSidecarsValid(spec.sidecars)
    ensures !ok ==> !Accepts(spec)
  {
    hide ValidProcess, ValidSidecar;
    assert SidecarProcesses(spec.sidecars[..0]) == [];
    for i := 0 to |spec.sidecars|
      invariant TalliedSoFar(SidecarProcesses(spec.sidecars[..i]), tally.names, tally.budgetMs, tally.services)
      invariant AllSidecarsValid(spec.sidecars[..i])
    {
      ok := ValidateNextSidecar(spec, i, spec.sidecars[i], tally);
      if !ok {
        return;
      }
      assert spec.sidecars[..i + 1][..i] == spec.sidecars[..i];
    }
    assert spec.sidecars[..|spec.sidecars|] == spec.sidecars;
    return true;
  }

  /** One turn of the first loop. */
  method ValidateNextSidecar(ghost spec: Spec, ghost n: nat, s: Sidecar, tally: Tally) returns (ok: bool)
    requires n < |spec.sidecars| && s == spec.sidecars[n]
    requires TalliedSoFar(SidecarProcesses(spec.sidecars[..n]), tally.names, tally.budgetMs, tally.services)
    modifies tally
    ensures ok ==>
      TalliedSoFar(SidecarProcesses(spec.sidecars[..n + 1]), tally.names, tally.budgetMs, tally.services)
    ensures ok ==> ValidSidecar(s)
    ensures !ok ==> !Accepts(spec)
  {
    assert Processes(spec)[..n] == SidecarProcesses(spec.sidecars[..n]);
    assert Processes(spec)[..n + 1] == SidecarProcesses(spec.sidecars[..n + 1]);
    ok := ValidateNext(spec, n, s.process, tally);
    if ok {
      ok := ValidateSidecar(s);
      assert s in spec.sidecars;
    }
  }

  /** One call of `validate_common`, seen from the whole declaration. */
  method ValidateNext(ghost spec: Spec, ghost n: nat, p: Process, tally: Tally) returns (ok: bool)
    requires n < |Processes(spec)| && p == Processes(spec)[n]
    requires TalliedSoFar(Processes(spec)[..n], tally.names, tally.budgetMs, tally.services)
    modifies tally
    ensures ok ==> TalliedSoFar(Processes(spec)[..n + 1], tally.names, tally.budgetMs, tally.services)
    ensures !ok ==> !Accepts(spec)
  {
    ghost var names, budget, services := tally.names, tally.budgetMs, tally.services;
    ok := tally.ValidateCommon(p);
    if ok {
      TallySnoc(Processes(spec)[..n], p, names, budget, services);
      assert Processes(spec)[..n + 1] == Processes(spec)[..n] + [p];
    } else {
      Refused(spec, n, names, budget, services);
    }
  }

  /** The second loop of `validate`. */
  method ValidateMain(spec: Spec, tally: Tally) returns (ok: bool)
    requires TalliedSoFar(SidecarProcesses(spec.sidecars), tally.names, tally.budgetMs, tally.services)
    modifies tally
    ensures ok ==> TalliedSoFar(Processes(spec), tally.names, tally.budgetMs, tally.services)
    ensures !ok ==> !Accepts(spec)
  {
    hide ValidProcess, Accepts;
    ghost var all := Processes(spec);
    ghost var first := |spec.sidecars|;
    assert all[..first] == SidecarProcesses(spec.sidecars);
    for i := 0 to |spec.main|
      invariant TalliedSoFar(all[..first + i], tally.names, tally.budgetMs, tally.services)
    {
      assert all[first + i] == spec.main[i];
      ok := ValidateNext(spec, first + i, spec.main[i], tally);
      if !ok {
        return;
      }
    }
    assert all[..|all|] == all;
    return true;
  }

  // -------------------------------------------------------- launch plan

  datatype Identity = Identity(uid: Sandrun.u32, gid: Sandrun.u32)

  datatype Launch =
    | SidecarLaunch(sidecar: Sidecar)
    | MainLaunch(main: Process, identity: Option<Identity>)
  {
    function Process(): Process {
      if SidecarLaunch? then sidecar.process else main
    }
  }

  /** The named main users must all be found before the first process starts. */
  predicate AllUsersKnown(main: seq<Process>, passwd: map<string, Identity>) {
    forall p :: p in main && p.user.Some? && p.user.value.Named? ==> p.user.value.name in passwd
  }

  function FromMain(p: Process, passwd: map<string, Identity>): (launch: Launch)
    requires p.user.Some? && p.user.value.Named? ==> p.user.value.name in passwd
    ensures launch.Process() == p
  {
    MainLaunch(p, match p.user
                  case None => None
                  case Some(Numeric(uid, gid)) => Some(Identity(uid, gid))
                  case Some(Named(name)) => Some(passwd[name]))
  }

  lemma MainRunsAs(p: Process, passwd: map<string, Identity>)
    requires p.user.Some? && p.user.value.Named? ==> p.user.value.name in passwd
    ensures var launch := FromMain(p, passwd);
            launch.MainLaunch? && launch.main == p && RunsAs(p, passwd, launch.identity)
  {
  }

  function SidecarLaunches(spec: Spec): (launches: seq<Launch>)
    ensures |launches| == |spec.sidecars|
  {
    seq(|spec.sidecars|, i requires 0 <= i < |spec.sidecars| => SidecarLaunch(spec.sidecars[i]))
  }

  function MainLaunches(spec: Spec, passwd: map<string, Identity>): (launches: seq<Launch>)
    requires AllUsersKnown(spec.main, passwd)
    ensures |launches| == |spec.main|
  {
    seq(|spec.main|, i requires 0 <= i < |spec.main| && spec.main[i] in spec.main => FromMain(spec.main[i], passwd))
  }

  /** The launch plan: sidecars as declared, then main processes as declared. */
  function Launches(spec: Spec, passwd: map<string, Identity>): seq<Launch>
    requires AllUsersKnown(spec.main, passwd)
  {
    SidecarLaunches(spec) + MainLaunches(spec, passwd)
  }

  /** A main process runs as whom it names: nobody in particular, these ids, or the ids of that user. */
  predicate RunsAs(p: Process, passwd: map<string, Identity>, identity: Option<Identity>) {
    match p.user
    case None => identity == None
    case Some(Numeric(uid, gid)) => identity.Some? && identity.value.uid == uid && identity.value.gid == gid
    case Some(Named(name)) => name in passwd && identity == Some(passwd[name])
  }

  lemma LaunchesMeaning(spec: Spec, passwd: map<string, Identity>)
    requires AllUsersKnown(spec.main, passwd)
    ensures var plan := Launches(spec, passwd);
            && |plan| == |Processes(spec)|
            && (forall i :: 0 <= i < |plan| ==> plan[i].Process() == Processes(spec)[i])
            && (forall i :: 0 <= i < |spec.sidecars| ==> plan[i] == SidecarLaunch(spec.sidecars[i]))
            && forall i :: 0 <= i < |spec.main| ==>
                 var launch := plan[|spec.sidecars| + i];
                 launch.MainLaunch? && launch.main == spec.main[i] && RunsAs(spec.main[i], passwd, launch.identity)
  {
    hide FromMain, RunsAs, AllUsersKnown;
    var plan := Launches(spec, passwd);
    forall i | 0 <= i < |spec.main|
      ensures var launch := plan[|spec.sidecars| + i];
              launch.MainLaunch? && launch.main == spec.main[i] && RunsAs(spec.main[i], passwd, launch.identity)
    {
      KnownUser(spec, passwd, i);
      MainRunsAs(spec.main[i], passwd);
    }
  }

  lemma KnownUser(spec: Spec, passwd: map<string, Identity>, i: nat)
    requires AllUsersKnown(spec.main, passwd) && i < |spec.main|
    ensures var p := spec.main[i];
            p in spec.main && (p.user.Some? && p.user.value.Named? ==> p.user.value.name in passwd)
  {
    assert spec.main[i] in spec.main;
  }

  /** `flatten`, given what `/etc/passwd` says of each user name. */
  method Flatten(spec: Spec, passwd: map<string, Identity>) returns (plan: Option<seq<Launch>>)
    ensures plan.Some? <==> AllUsersKnown(spec.main, passwd)
    ensures plan.Some? ==> plan.value == Launches(spec, passwd)
    ensures plan.Some? ==>
      && |plan.value| == |Processes(spec)|
      && (forall i :: 0 <= i < |plan.value| ==> plan.value[i].Process() == Processes(spec)[i])
      && (forall i :: 0 <= i < |spec.sidecars| ==> plan.value[i] == SidecarLaunch(spec.sidecars[i]))
      && forall i :: 0 <= i < |spec.main| ==>
           var launch := plan.value[|spec.sidecars| + i];
           launch.MainLaunch? && launch.main == spec.main[i] && RunsAs(spec.main[i], passwd, launch.identity)
  {
    hide FromMain, RunsAs;
    if !AllUsersKnown(spec.main, passwd) {
      return None;
    }
    hide AllUsersKnown;
    var result: seq<Launch> := [];
    for i := 0 to |spec.sidecars|
      invariant result == SidecarLaunches(spec)[..i]
    {
      result := result + [SidecarLaunch(spec.sidecars[i])];
    }
    for i := 0 to |spec.main|
      invariant result == SidecarLaunches(spec) + MainLaunches(spec, passwd)[..i]
    {
      KnownUser(spec, passwd, i);
      result := result + [FromMain(spec.main[i], passwd)];
    }
    LaunchesMeaning(spec, passwd);
    return Some(result);
  }
}
