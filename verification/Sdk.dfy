/**
 The Go SDK: what `Spec.Validate` accepts, and the runtime declaration it
 becomes. Durations are nanoseconds.
 */
module Sdk {
  import opened Wrappers
  import opened Paths
  import OriginForm
  import Sandrun

  const MILLISECOND: int := 1_000_000
  const SECOND: int := 1_000 * MILLISECOND
  const AGS_READY_TIMEOUT: int := 30 * SECOND
  const MAX_STARTUP_BUDGET: int := 25 * SECOND
  const MAX_EXPOSED_PORTS: nat := 8
  const CONTROL_PORT: int := 49_982
  const SPEC_ENVIRONMENT: string := "SANDCAMP_SPEC"
  const DEFAULT_OVERLAY_DEVICE: string := "/dev/vdb"
  const SERVICE: string := "service"
  const RUN_TO_COMPLETION: string := "run-to-completion"
  const RUNTIME_SPEC_VERSION: nat := 3

  datatype Probe = Probe(
    path: string, port: int, startupTimeout: int, period: int, timeout: int,
    failureThreshold: int, successThreshold: int)

  /** A name, or numeric ids where the name is empty. */
  datatype User = User(name: string, uid: Sandrun.u32, gid: Sandrun.u32)

  datatype Process = Process(
    name: string,
    kind: string,
    command: seq<string>,
    env: map<string, string>,
    workdir: string,
    user: Option<User>,
    expose: seq<int>,
    overlayDevice: string,
    mounts: seq<Sandrun.Bind>,
    diskMounts: seq<string>,
    probe: Option<Probe>,
    timeout: int)

  datatype Spec = Spec(sidecars: seq<Process>, main: seq<Process>)

  // --------------------------------------------------- what is accepted

  predicate MatchesName(s: string) {
    s != "" && |s| <= 64 && OriginForm.IsAlphanumeric(s[0])
    && forall c :: c in s[1..] ==> OriginForm.IsAlphanumeric(c) || c in "_.-"
  }

  predicate MatchesUserName(s: string) {
    s != "" && |s| <= 64 && (Sandrun.IsAlpha(s[0]) || s[0] == '_')
    && forall c :: c in s[1..] ==> OriginForm.IsAlphanumeric(c) || c in "_.-"
  }

  predicate MatchesEnvironment(s: string) {
    s != "" && (Sandrun.IsAlpha(s[0]) || s[0] == '_')
    && forall c :: c in s[1..] ==> OriginForm.IsAlphanumeric(c) || c == '_'
  }

  function ResolvedKind(kind: string): string {
    if kind == "" then SERVICE else kind
  }

  predicate KnownKind(kind: string) {
    kind == "" || kind == SERVICE || kind == RUN_TO_COMPLETION
  }

  function Filled(p: Probe): Probe {
    Probe(
      p.path, p.port,
      if p.startupTimeout == 0 then 8 * SECOND else p.startupTimeout,
      if p.period == 0 then 500 * MILLISECOND else p.period,
      if p.timeout == 0 then SECOND else p.timeout,
      if p.failureThreshold == 0 then 3 else p.failureThreshold,
      if p.successThreshold == 0 then 1 else p.successThreshold)
  }

  /** A whole number of milliseconds between two bounds. */
  predicate ValidDuration(value: int, minimum: int, maximum: int) {
    minimum <= value <= maximum && value % MILLISECOND == 0
  }

  ghost predicate ValidProbe(p: Probe) {
    && OriginForm.IsOriginForm(p.path)
    && 1 <= p.port <= 65_535 && p.port != CONTROL_PORT
    && ValidDuration(p.startupTimeout, SECOND, AGS_READY_TIMEOUT)
    && ValidDuration(p.period, 100 * MILLISECOND, AGS_READY_TIMEOUT)
    && ValidDuration(p.timeout, 100 * MILLISECOND, AGS_READY_TIMEOUT)
    && p.timeout <= p.startupTimeout
    && 1 <= p.failureThreshold <= Sandrun.U32_MAX
    && 1 <= p.successThreshold <= Sandrun.U32_MAX
  }

  predicate ValidUser(u: User) {
    if u.name != "" then MatchesUserName(u.name) && u.uid == 0 && u.gid == 0
    else u.uid != Sandrun.U32_MAX && u.gid != Sandrun.U32_MAX
  }

  predicate ValidEnvironment(env: map<string, string>) {
    forall key :: key in env ==> MatchesEnvironment(key) && '\0' !in env[key] && key != SPEC_ENVIRONMENT
  }

  predicate ValidCommand(command: seq<string>) {
    command != [] && GoAbsolute(command[0]) && forall argument :: argument in command ==> '\0' !in argument
  }

  predicate ValidPort(port: int) {
    1 <= port <= 65_535 && port != CONTROL_PORT && port != 32_000 && port != 57_890
  }

  ghost predicate ValidLifecycle(p: Process) {
    && KnownKind(p.kind)
    && (ResolvedKind(p.kind) == SERVICE ==>
          p.timeout == 0 && (p.probe.Some? ==> ValidProbe(Filled(p.probe.value))))
    && (ResolvedKind(p.kind) == RUN_TO_COMPLETION ==>
          p.probe.None? && p.expose == [] && ValidDuration(p.timeout, 100 * MILLISECOND, AGS_READY_TIMEOUT))
  }

  ghost predicate ValidProcess(p: Process) {
    && MatchesName(p.name)
    && ValidCommand(p.command)
    && (p.workdir == "" || GoAbsoluteAllowRoot(p.workdir))
    && (p.user.Some? ==> ValidUser(p.user.value))
    && ValidEnvironment(p.env)
    && (forall port :: port in p.expose ==> ValidPort(port))
    && ValidLifecycle(p)
  }

  function AllTargets(p: Process): seq<string> {
    Sandrun.STANDARD_TARGETS + p.diskMounts + Sandrun.BindTargets(p.mounts)
  }

  ghost predicate ApartFrom(targets: seq<string>, from: nat) {
    forall i, j :: 0 <= j < i < |targets| && from <= i ==> !GoOverlap(targets[j], targets[i])
  }

  ghost predicate ValidMounts(p: Process) {
    && (p.overlayDevice == "" || GoAbsolute(p.overlayDevice))
    && (forall t :: t in p.diskMounts ==> GoAbsolute(t))
    && (forall m :: m in p.mounts ==> GoAbsolute(m.source) && GoAbsolute(m.target))
    && ApartFrom(AllTargets(p), |Sandrun.STANDARD_TARGETS|)
  }

  predicate NoSidecarOptions(p: Process) {
    p.overlayDevice == "" && p.mounts == [] && p.diskMounts == []
  }

  function Processes(spec: Spec): seq<Process> {
    spec.sidecars + spec.main
  }

  function Ports(ps: seq<Process>): seq<int> {
    if ps == [] then [] else Ports(ps[..|ps| - 1]) + ps[|ps| - 1].expose
  }

  function StartupCost(p: Process): int {
    if ResolvedKind(p.kind) == SERVICE then
      if p.probe.Some? then Filled(p.probe.value).startupTimeout else 0
    else p.timeout
  }

  function StartupBudget(ps: seq<Process>): int {
    if ps == [] then 0 else StartupBudget(ps[..|ps| - 1]) + StartupCost(ps[|ps| - 1])
  }

  function Services(ps: seq<Process>): nat {
    if ps == [] then 0
    else Services(ps[..|ps| - 1]) + if ResolvedKind(ps[|ps| - 1].kind) == SERVICE then 1 else 0
  }

  ghost predicate DistinctNames(ps: seq<Process>) {
    forall i, j :: 0 <= i < j < |ps| ==> ps[i].name != ps[j].name
  }

  ghost predicate NoRepeats(ports: seq<int>) {
    forall i, j :: 0 <= i < j < |ports| ==> ports[i] != ports[j]
  }

  ghost predicate Accepts(spec: Spec) {
    && Processes(spec) != []
    && (forall p :: p in Processes(spec) ==> ValidProcess(p))
    && (forall p :: p in spec.sidecars ==> ValidMounts(p))
    && (forall p :: p in spec.main ==> NoSidecarOptions(p))
    && DistinctNames(Processes(spec))
    && NoRepeats(Ports(Processes(spec)))
    && |Ports(Processes(spec))| <= MAX_EXPOSED_PORTS
    && Services(Processes(spec)) > 0
    && StartupBudget(Processes(spec)) <= MAX_STARTUP_BUDGET
  }

  // ---------------------------------------------------------- validator

  /** `resolveProbe`. */
  method ResolveProbe(p: Probe) returns (r: Option<Probe>)
    ensures r == None <==> !ValidProbe(Filled(p))
    ensures r.Some? ==> r.value == Filled(p)
  {
    var probe := p;
    if probe.startupTimeout == 0 {
      probe := probe.(startupTimeout := 8 * SECOND);
    }
    if probe.period == 0 {
      probe := probe.(period := 500 * MILLISECOND);
    }
    if probe.timeout == 0 {
      probe := probe.(timeout := SECOND);
    }
    if probe.failureThreshold == 0 {
      probe := probe.(failureThreshold := 3);
    }
    if probe.successThreshold == 0 {
      probe := probe.(successThreshold := 1);
    }
    var pathOk := OriginForm.GoScan(probe.path);
    if !pathOk || probe.port < 1 || probe.port > 65_535 || probe.port == CONTROL_PORT {
      return None;
    }
    if !ValidDuration(probe.startupTimeout, SECOND, AGS_READY_TIMEOUT)
       || !ValidDuration(probe.period, 100 * MILLISECOND, AGS_READY_TIMEOUT)
       || !ValidDuration(probe.timeout, 100 * MILLISECOND, AGS_READY_TIMEOUT)
       || probe.timeout > probe.startupTimeout {
      return None;
    }
    if probe.failureThreshold < 1 || probe.successThreshold < 1
       || probe.failureThreshold > Sandrun.U32_MAX || probe.successThreshold > Sandrun.U32_MAX {
      return None;
    }
    return Some(probe);
  }

  /** The maps and counters `Validate` shares between processes. */
  class Tally {
    var names: set<string>
    var ports: seq<int>
    var budget: int
    var services: nat

    constructor ()
      ensures names == {} && ports == [] && budget == 0 && services == 0
    {
      names, ports, budget, services := {}, [], 0, 0;
    }

    /** The loop over a process's exposed ports. */
    method ExposePorts(expose: seq<int>) returns (ok: bool)
      requires NoRepeats(ports)
      modifies this`ports
      ensures ok <==> (forall port :: port in expose ==> ValidPort(port)) && NoRepeats(old(ports) + expose)
      ensures ok ==> ports == old(ports) + expose
    {
      for i := 0 to |expose|
        invariant ports == old(ports) + expose[..i]
        invariant NoRepeats(ports)
        invariant forall port :: port in expose[..i] ==> ValidPort(port)
      {
        var port := expose[i];
        if !ValidPort(port) {
          return false;
        }
        if port in ports {
          Repeated(ports, port, expose[i + 1..]);
          assert ports + [port] + expose[i + 1..] == old(ports) + expose;
          return false;
        }
        ports := ports + [port];
      }
      assert expose[..|expose|] == expose;
      return true;
    }

    /** `validateProcess`. */
    method ValidateProcess(p: Process) returns (ok: bool)
      requires NoRepeats(ports)
      modifies this
      ensures ok <==> ValidProcess(p) && p.name !in old(names) && NoRepeats(old(ports) + p.expose)
      ensures ok ==> names == old(names) + {p.name} && ports == old(ports) + p.expose
      ensures ok ==> budget == old(budget) + StartupCost(p)
      ensures ok ==> services == old(services) + if ResolvedKind(p.kind) == SERVICE then 1 else 0
    {
      if !MatchesName(p.name) || p.name in names {
        return false;
      }
      names := names + {p.name};
      if !ValidCommand(p.command)
         || (p.workdir != "" && !GoAbsoluteAllowRoot(p.workdir))
         || (p.user.Some? && !ValidUser(p.user.value))
         || !ValidEnvironment(p.env) {
        return false;
      }
      var exposed := ExposePorts(p.expose);
      if !exposed || !KnownKind(p.kind) {
        return false;
      }
      if ResolvedKind(p.kind) == SERVICE {
        services := services + 1;
        if p.timeout != 0 {
          return false;
        }
        if p.probe.Some? {
          var resolved := ResolveProbe(p.probe.value);
          if resolved.None? {
            return false;
          }
          budget := budget + resolved.value.startupTimeout;
        }
      } else {
        if p.probe.Some? || p.expose != []
           || !ValidDuration(p.timeout, 100 * MILLISECOND, AGS_READY_TIMEOUT) {
          return false;
        }
        budget := budget + p.timeout;
      }
      return true;
    }
  }

  lemma Repeated(ports: seq<int>, port: int, more: seq<int>)
    requires port in ports
    ensures !NoRepeats(ports + [port] + more)
  {
    var i :| 0 <= i < |ports| && ports[i] == port;
    var all := ports + [port] + more;
    assert all[i] == all[|ports|];
  }

  method OverlapsNone(target: string, previous: seq<string>) returns (ok: bool)
    ensures ok <==> forall j :: 0 <= j < |previous| ==> !GoOverlap(previous[j], target)
  {
    for k := 0 to |previous|
      invariant forall j :: 0 <= j < k ==> !GoOverlap(previous[j], target)
    {
      if GoOverlap(previous[k], target) {
        return false;
      }
    }
    return true;
  }

  /** The loop of `validateSidecarMounts` over `added` targets, after `base`. */
  method AppendTargets(base: seq<string>, added: seq<string>) returns (ok: bool)
    ensures ok <==> (forall t :: t in added ==> GoAbsolute(t)) && ApartFrom(base + added, |base|)
  {
    hide GoAbsolute, GoOverlap;
    var targets := base;
    for i := 0 to |added|
      invariant targets == base + added[..i]
      invariant forall t :: t in added[..i] ==> GoAbsolute(t)
      invariant ApartFrom(targets, |base|)
    {
      if !GoAbsolute(added[i]) {
        return false;
      }
      var apart := OverlapsNone(added[i], targets);
      if !apart {
        NotApart(targets, added[i], added[i + 1..], |base|);
        assert targets + [added[i]] + added[i + 1..] == base + added;
        return false;
      }
      targets := targets + [added[i]];
    }
    assert added[..|added|] == added;
    return true;
  }

  lemma NotApart(targets: seq<string>, target: string, more: seq<string>, from: nat)
    requires from <= |targets|
    requires exists j :: 0 <= j < |targets| && GoOverlap(targets[j], target)
    ensures !ApartFrom(targets + [target] + more, from)
  {
    var j :| 0 <= j < |targets| && GoOverlap(targets[j], target);
    var all := targets + [target] + more;
    assert all[|targets|] == target && all[j] == targets[j];
  }

  /** `validateSidecarMounts`. */
  method ValidateSidecarMounts(p: Process) returns (ok: bool)
    ensures ok <==> ValidMounts(p)
  {
    var standard, targets := Sandrun.STANDARD_TARGETS, Sandrun.BindTargets(p.mounts);
    ApartInTwo(standard, p.diskMounts, targets);
    if p.overlayDevice != "" && !GoAbsolute(p.overlayDevice) {
      return false;
    }
    var disksOk := AppendTargets(standard, p.diskMounts);
    if !disksOk {
      return false;
    }
    var sourcesOk := forall m :: m in p.mounts ==> GoAbsolute(m.source);
    var targetsOk := AppendTargets(standard + p.diskMounts, targets);
    TargetsAreMounts(p.mounts);
    return sourcesOk && targetsOk;
  }

  lemma TargetsAreMounts(mounts: seq<Sandrun.Bind>)
    ensures (forall t :: t in Sandrun.BindTargets(mounts) ==> GoAbsolute(t))
            <==> forall m :: m in mounts ==> GoAbsolute(m.target)
  {
    var targets := Sandrun.BindTargets(mounts);
    if forall t :: t in targets ==> GoAbsolute(t) {
      forall m | m in mounts
        ensures GoAbsolute(m.target)
      {
        var i :| 0 <= i < |mounts| && mounts[i] == m;
        assert targets[i] == m.target;
      }
    }
  }

  lemma ApartInTwo(base: seq<string>, first: seq<string>, second: seq<string>)
    ensures ApartFrom(base + first + second, |base|)
            <==> ApartFrom(base + first, |base|) && ApartFrom(base + first + second, |base + first|)
  {
    var part, all := base + first, base + first + second;
    if ApartFrom(all, |base|) {
      forall i, j | 0 <= j < i < |part| && |base| <= i
        ensures !GoOverlap(part[j], part[i])
      {
        assert all[i] == part[i] && all[j] == part[j];
      }
    }
    if ApartFrom(part, |base|) && ApartFrom(all, |part|) {
      forall i, j | 0 <= j < i < |all| && |base| <= i
        ensures !GoOverlap(all[j], all[i])
      {
        if i < |part| {
          assert all[i] == part[i] && all[j] == part[j];
        }
      }
    }
  }

  ghost predicate TalliedSoFar(ps: seq<Process>, names: set<string>, ports: seq<int>, budget: int, services: nat) {
    && (forall p :: p in ps ==> ValidProcess(p))
    && DistinctNames(ps)
    && names == (set p | p in ps :: p.name)
    && ports == Ports(ps) && NoRepeats(ports)
    && budget == StartupBudget(ps)
    && services == Services(ps)
  }

  lemma TallySnoc(ps: seq<Process>, p: Process, names: set<string>, ports: seq<int>, budget: int, services: nat)
    requires TalliedSoFar(ps, names, ports, budget, services)
    requires ValidProcess(p) && p.name !in names && NoRepeats(ports + p.expose)
    ensures TalliedSoFar(ps + [p], names + {p.name}, ports + p.expose, budget + StartupCost(p),
                         services + if ResolvedKind(p.kind) == SERVICE then 1 else 0)
  {
    hide ValidProcess;
    var more := ps + [p];
    assert more[..|more| - 1] == ps;
    forall i, j | 0 <= i < j < |more|
      ensures more[i].name != more[j].name
    {
      if j == |ps| {
        assert ps[i] in ps;
      }
    }
    assert forall q :: q in more <==> q in ps || q == p;
  }

  lemma {:induction false} PortsGrow(ps: seq<Process>, n: nat)
    requires n <= |ps|
    ensures Ports(ps[..n]) <= Ports(ps)
    decreases |ps|
  {
    if n == |ps| {
      assert ps[..n] == ps;
    } else {
      var short := ps[..|ps| - 1];
      assert short[..n] == ps[..n];
      PortsGrow(short, n);
    }
  }

  lemma Refused(spec: Spec, n: nat, names: set<string>, ports: seq<int>, budget: int, services: nat)
    requires n < |Processes(spec)|
    requires TalliedSoFar(Processes(spec)[..n], names, ports, budget, services)
    requires var p := Processes(spec)[n];
             !(ValidProcess(p) && p.name !in names && NoRepeats(ports + p.expose))
    ensures !Accepts(spec)
  {
    hide ValidProcess, ValidMounts, NoSidecarOptions, Services, StartupBudget;
    var all := Processes(spec);
    var p := all[n];
    if p.name in names {
      var q :| q in all[..n] && q.name == p.name;
      var i :| 0 <= i < n && all[i] == q;
      assert !DistinctNames(all);
    } else if ValidProcess(p) {
      assert all[..n + 1][..n] == all[..n];
      PortsGrow(all, n + 1);
      PrefixKeepsRepeats(ports + p.expose, Ports(all));
    } else {
      assert p in all;
    }
  }

  lemma PrefixKeepsRepeats(part: seq<int>, all: seq<int>)
    requires part <= all && !NoRepeats(part)
    ensures !NoRepeats(all)
  {
    var i, j :| 0 <= i < j < |part| && part[i] == part[j];
    assert all[i] == part[i] && all[j] == part[j];
  }

  /** `Spec.Validate`. */
  method Validate(spec: Spec) returns (ok: bool)
    ensures ok <==> Accepts(spec)
  {
    if |spec.sidecars| + |spec.main| == 0 {
      return false;
    }
    var tally := new Tally();
    ok := ValidateSidecars(spec, tally);
    if ok {
      ok := ValidateMain(spec, tally);
    }
    if ok {
      ok := tally.services != 0 && |tally.ports| <= MAX_EXPOSED_PORTS && tally.budget <= MAX_STARTUP_BUDGET;
    }
  }

  /** One call of `validateProcess`, seen from the whole declaration. */
  method ValidateNext(ghost spec: Spec, ghost n: nat, p: Process, tally: Tally) returns (ok: bool)
    requires n < |Processes(spec)| && p == Processes(spec)[n]
    requires TalliedSoFar(Processes(spec)[..n], tally.names, tally.ports, tally.budget, tally.services)
    modifies tally
    ensures ok ==> TalliedSoFar(Processes(spec)[..n + 1], tally.names, tally.ports, tally.budget, tally.services)
    ensures !ok ==> !Accepts(spec)
  {
    hide ValidProcess;
    ghost var names, ports, budget, services := tally.names, tally.ports, tally.budget, tally.services;
    ok := tally.ValidateProcess(p);
    if ok {
      TallySnoc(Processes(spec)[..n], p, names, ports, budget, services);
      assert Processes(spec)[..n + 1] == Processes(spec)[..n] + [p];
    } else {
      Refused(spec, n, names, ports, budget, services);
    }
  }

  /** The first loop of `Validate`. */
  method ValidateSidecars(spec: Spec, tally: Tally) returns (ok: bool)
    requires TalliedSoFar([], tally.names, tally.ports, tally.budget, tally.services)
    modifies tally
    ensures ok ==> TalliedSoFar(spec.sidecars, tally.names, tally.ports, tally.budget, tally.services)
    ensures ok ==> forall p :: p in spec.sidecars ==> ValidMounts(p)
    ensures !ok ==> !Accepts(spec)
  {
    hide ValidProcess, ValidMounts;
    ghost var all := Processes(spec);
    for i := 0 to |spec.sidecars|
      invariant TalliedSoFar(all[..i], tally.names, tally.ports, tally.budget, tally.services)
      invariant forall p :: p in spec.sidecars[..i] ==> ValidMounts(p)
    {
      var p := spec.sidecars[i];
      assert p in spec.sidecars && all[i] == p;
      ok := ValidateNext(spec, i, p, tally);
      if ok {
        ok := ValidateSidecarMounts(p);
      }
      if !ok {
        return;
      }
    }
    assert all[..|spec.sidecars|] == spec.sidecars;
    return true;
  }

  /** One turn of the second loop of `Validate`. */
  method ValidateNextMain(ghost spec: Spec, ghost n: nat, p: Process, tally: Tally) returns (ok: bool)
    requires n < |spec.main| && p == spec.main[n]
    requires TalliedSoFar(spec.sidecars + spec.main[..n], tally.names, tally.ports, tally.budget, tally.services)
    modifies tally
    ensures ok ==> TalliedSoFar(
                       spec.sidecars + spec.main[..n + 1], tally.names, tally.ports, tally.budget, tally.services)
    ensures ok ==> NoSidecarOptions(p)
    ensures !ok ==> !Accepts(spec)
  {
    ghost var m := |spec.sidecars| + n;
    assert Processes(spec)[..m] == spec.sidecars + spec.main[..n];
    assert Processes(spec)[..m + 1] == spec.sidecars + spec.main[..n + 1];
    ok := ValidateNext(spec, m, p, tally);
    if ok && !NoSidecarOptions(p) {
      assert p in spec.main;
      ok := false;
    }
  }

  /** The second loop of `Validate`. */
  method ValidateMain(spec: Spec, tally: Tally) returns (ok: bool)
    requires TalliedSoFar(spec.sidecars, tally.names, tally.ports, tally.budget, tally.services)
    modifies tally
    ensures ok ==> TalliedSoFar(Processes(spec), tally.names, tally.ports, tally.budget, tally.services)
    ensures ok ==> forall p :: p in spec.main ==> NoSidecarOptions(p)
    ensures !ok ==> !Accepts(spec)
  {
    hide ValidProcess, NoSidecarOptions, Accepts;
    assert spec.sidecars + spec.main[..0] == spec.sidecars;
    for i := 0 to |spec.main|
      invariant TalliedSoFar(spec.sidecars + spec.main[..i], tally.names, tally.ports, tally.budget, tally.services)
      invariant forall j :: 0 <= j < i ==> NoSidecarOptions(spec.main[j])
    {
      ok := ValidateNextMain(spec, i, spec.main[i], tally);
      if !ok {
        return;
      }
    }
    assert spec.main[..|spec.main|] == spec.main;
    return true;
  }

  // -------------------------------------------------------------- images

  /** `path.Join` of the mount root and a name. */
  function MountPath(name: string): string {
    GoClean("/mnt/sandcamp-sidecars/" + name)
  }

  // ---------------------------------------------------------------- wire

  datatype WireProbe = WireProbe(
    path: string, port: int, startupTimeoutMs: int, periodMs: int, timeoutMs: int,
    failureThreshold: int, successThreshold: int)

  datatype WireUser = WireUser(name: Option<string>, uid: Option<nat>, gid: Option<nat>)

  datatype WireProcess = WireProcess(
    name: string, kind: string, command: seq<string>, env: map<string, string>, workdir: string,
    probe: Option<WireProbe>, completionTimeoutMs: int, user: Option<WireUser>)

  datatype WireSidecar = WireSidecar(
    process: WireProcess, rootfs: string, overlayDevice: string, standardMounts: bool,
    diskMounts: seq<string>, binds: seq<Sandrun.Bind>)

  datatype WireSpec = WireSpec(version: nat, sidecars: seq<WireSidecar>, main: seq<WireProcess>)

  function ToRuntimeUser(u: User): WireUser {
    if u.name != "" then WireUser(Some(u.name), None, None) else WireUser(None, Some(u.uid), Some(u.gid))
  }

  /** `Duration.Milliseconds`, which truncates toward zero. */
  function Milliseconds(d: int): int {
    if d >= 0 then d / MILLISECOND else -(-d / MILLISECOND)
  }

  function ToRuntimeProbe(p: Probe): WireProbe {
    var filled := Filled(p);
    WireProbe(filled.path, filled.port, Milliseconds(filled.startupTimeout), Milliseconds(filled.period),
              Milliseconds(filled.timeout), filled.failureThreshold, filled.successThreshold)
  }

  function ToRuntimeProcess(p: Process): WireProcess {
    WireProcess(
      p.name, ResolvedKind(p.kind), p.command, p.env, p.workdir,
      if p.probe.Some? then Some(ToRuntimeProbe(p.probe.value)) else None,
      if ResolvedKind(p.kind) == RUN_TO_COMPLETION then Milliseconds(p.timeout) else 0,
      if p.user.Some? then Some(ToRuntimeUser(p.user.value)) else None)
  }

  function ToRuntimeSidecar(p: Process, rootfs: string): WireSidecar {
    WireSidecar(
      ToRuntimeProcess(p), rootfs,
      if p.overlayDevice == "" then DEFAULT_OVERLAY_DEVICE else p.overlayDevice,
      true, p.diskMounts, p.mounts)
  }

  function ToRuntimeSpec(spec: Spec): WireSpec {
    WireSpec(
      RUNTIME_SPEC_VERSION,
      seq(|spec.sidecars|, i requires 0 <= i < |spec.sidecars| =>
        ToRuntimeSidecar(spec.sidecars[i], MountPath(spec.sidecars[i].name))),
      seq(|spec.main|, i requires 0 <= i < |spec.main| => ToRuntimeProcess(spec.main[i])))
  }
}
