/**
 The two validators against each other: Go accepts a declaration exactly if
 campd accepts what it becomes and a short list of demands, which only Go
 makes, is met.
 */
module Validators {
  import opened Wrappers
  import opened Paths
  import Sandrun
  import Sdk
  import Campd
  import Pipeline

  // ----------------------------------------------------- what only Go asks

  /** The spelling `path.Clean` would give. */
  predicate Canonical(s: string) {
    s == Text(Names(Components(s)))
  }

  /** Canonical paths, no ids beside a user name, no timeout for services and no ports for jobs, good ports. */
  predicate GoProcess(p: Sdk.Process) {
    && (p.command != [] ==> Canonical(p.command[0]))
    && (p.workdir != "" ==> Canonical(p.workdir))
    && (p.user.Some? && p.user.value.name != "" ==> p.user.value.uid == 0 && p.user.value.gid == 0)
    && (p.kind != "run-to-completion" ==> p.timeout == 0)
    && (p.kind == "run-to-completion" ==> p.expose == [])
    && (p.probe.Some? ==> p.probe.value.port <= 65_535)
    && forall port :: port in p.expose ==>
         1 <= port <= 65_535 && port != 49_982 && port != 32_000 && port != 57_890
  }

  predicate GoMounts(p: Sdk.Process) {
    && (p.overlayDevice != "" ==> Canonical(p.overlayDevice))
    && (forall t :: t in p.diskMounts ==> Canonical(t))
    && (forall m :: m in p.mounts ==> Canonical(m.source) && Canonical(m.target))
  }

  /** No sidecar options outside sidecars, and at most eight ports, each exposed once. */
  ghost predicate GoSpec(spec: Sdk.Spec) {
    && (forall p :: p in Sdk.Processes(spec) ==> GoProcess(p))
    && (forall p :: p in spec.sidecars ==> GoMounts(p))
    && (forall p :: p in spec.main ==> p.overlayDevice == "" && p.mounts == [] && p.diskMounts == [])
    && Sdk.NoRepeats(Sdk.Ports(Sdk.Processes(spec))) && |Sdk.Ports(Sdk.Processes(spec))| <= 8
  }

  // ------------------------------------------------- what Go's terms become

  predicate MeansSidecar(p: Sdk.Process, s: Campd.Sidecar) {
    && Pipeline.MeansProcess(p, s.process)
    && s.rootfs == "/mnt/sandcamp-sidecars/" + p.name
    && s.overlayDevice == Some(if p.overlayDevice == "" then "/dev/vdb" else p.overlayDevice)
    && s.standardMounts && s.diskMounts == p.diskMounts && s.binds == p.mounts
  }

  predicate MeansSpec(spec: Sdk.Spec, c: Campd.Spec) {
    && c.version == 3
    && |c.sidecars| == |spec.sidecars| && |c.main| == |spec.main|
    && (forall i :: 0 <= i < |c.sidecars| ==> MeansSidecar(spec.sidecars[i], c.sidecars[i]))
    && (forall i :: 0 <= i < |c.main| ==> Pipeline.MeansProcess(spec.main[i], c.main[i]))
  }

  // ------------------------------------------------------------- processes

  lemma PathIff(s: string, allowRoot: bool)
    ensures (if allowRoot then GoAbsoluteAllowRoot(s) else GoAbsolute(s))
            <==> Campd.ValidPath(s, allowRoot) && Canonical(s)
  {
    if '\0' !in s {
      GoAcceptsIffRustAcceptsCanonical(s, allowRoot);
    }
  }

  lemma CommandIff(command: seq<string>)
    requires command != [] ==> Canonical(command[0])
    ensures Sdk.ValidCommand(command) <==> Campd.ValidCommand(command)
  {
    hide GoAbsolute, Campd.ValidPath, Canonical;
    if command != [] {
      PathIff(command[0], false);
    }
  }

  lemma EnvironmentIff(env: map<string, string>)
    ensures Sdk.ValidEnvironment(env) <==> Campd.ValidEnvironment(env)
  {
    hide Sdk.MatchesEnvironment, Campd.ValidEnvironmentName;
    forall key | key in env
      ensures Sdk.MatchesEnvironment(key) <==> Campd.ValidEnvironmentName(key)
    {
      Pipeline.NamesAgree(key);
    }
  }

  lemma UserIff(p: Option<Sdk.User>, c: Option<Sandrun.User>)
    requires Pipeline.MeansUser(p, c)
    requires p.Some? && p.value.name != "" ==> p.value.uid == 0 && p.value.gid == 0
    ensures (p.Some? ==> Sdk.ValidUser(p.value)) <==> (c.Some? ==> Campd.ValidUser(c.value))
  {
    hide Sdk.MatchesUserName, Sandrun.ValidUserName;
    if p.Some? {
      Pipeline.NamesAgree(p.value.name);
    }
  }

  lemma DurationIff(declared: int, default: int, ms: nat, low: int, high: int)
    requires Pipeline.MeansDuration(declared, default, ms)
    ensures Sdk.ValidDuration(if declared == 0 then default else declared, low * 1_000_000, high * 1_000_000)
            <==> low <= ms <= high
  {
    assert ms * 1_000_000 % 1_000_000 == 0;
  }

  lemma ProbeIff(p: Sdk.Probe, c: Campd.Probe)
    requires Pipeline.MeansProbe(p, c) && p.port <= 65_535
    ensures Sdk.ValidProbe(Sdk.Filled(p)) <==> Campd.ValidProbe(c)
  {
    DurationIff(p.startupTimeout, 8_000_000_000, c.startupTimeoutMs, 1_000, 30_000);
    DurationIff(p.period, 500_000_000, c.periodMs, 100, 30_000);
    DurationIff(p.timeout, 1_000_000_000, c.timeoutMs, 100, 30_000);
    hide Sdk.ValidDuration;
  }

  lemma LifecycleIff(p: Sdk.Process, c: Campd.Process)
    requires Pipeline.MeansProcess(p, c) && GoProcess(p)
    ensures Sdk.ValidLifecycle(p) <==> Campd.ValidLifecycle(c)
  {
    hide Sdk.ValidProbe, Campd.ValidProbe, Pipeline.MeansUser, Canonical, Sdk.Filled;
    if p.probe.Some? {
      ProbeIff(p.probe.value, c.probe.value);
    }
    if c.completionTimeoutMs.Some? {
      DurationIff(p.timeout, 0, c.completionTimeoutMs.value, 100, 30_000);
    }
  }

  /** Go accepts a process exactly if campd accepts what it means and Go's own demands are met. */
  lemma ProcessIff(p: Sdk.Process, c: Campd.Process)
    requires Pipeline.MeansProcess(p, c)
    ensures Sdk.ValidProcess(p) <==> Campd.ValidProcess(c) && GoProcess(p)
  {
    if Sdk.ValidProcess(p) {
      ValidIsGo(p);
    }
    if GoProcess(p) {
      hide Sdk.ValidLifecycle, Campd.ValidLifecycle, Campd.ValidCommand, Sdk.ValidCommand, Sdk.ValidEnvironment,
           Campd.ValidEnvironment, Sdk.ValidUser, Campd.ValidUser, Sdk.MatchesName, Campd.ValidName,
           GoAbsoluteAllowRoot, Campd.ValidPath, Canonical;
      Pipeline.NamesAgree(p.name);
      CommandIff(p.command);
      EnvironmentIff(p.env);
      UserIff(p.user, c.user);
      LifecycleIff(p, c);
      PathIff(p.workdir, true);
    }
  }

  lemma ValidIsGo(p: Sdk.Process)
    requires Sdk.ValidProcess(p)
    ensures GoProcess(p)
  {
    hide Canonical, GoAbsoluteAllowRoot, Campd.ValidPath, Sdk.MatchesName, Sdk.MatchesUserName, Sdk.ValidEnvironment;
    PathIff(p.command[0], false);
    if p.workdir != "" {
      PathIff(p.workdir, true);
    }
  }

  // -------------------------------------------------------------- sidecars

  lemma ApartIff(targets: seq<string>, from: nat)
    requires forall t :: t in targets ==> GoAbsolute(t)
    ensures Sdk.ApartFrom(targets, from) <==> Campd.ApartFrom(targets, from)
  {
    hide GoAbsolute, GoOverlap, ComponentsOverlap;
    forall i, j | 0 <= j < i < |targets|
      ensures GoOverlap(targets[j], targets[i]) <==> ComponentsOverlap(targets[i], targets[j])
    {
      OverlapTestsAgree(targets[j], targets[i]);
      OverlapIsMutual(targets[i], targets[j]);
    }
  }

  lemma OverlapIsMutual(a: string, b: string)
    ensures ComponentsOverlap(a, b) <==> ComponentsOverlap(b, a)
  {
  }

  /** The paths a sidecar names are accepted alike, once they are spelled canonically. */
  lemma MountPathsIff(p: Sdk.Process, s: Campd.Sidecar)
    requires MeansSidecar(p, s) && GoMounts(p)
    ensures p.overlayDevice == "" || GoAbsolute(p.overlayDevice) <==> Campd.ValidPath(s.overlayDevice.value, false)
    ensures (forall t :: t in p.diskMounts ==> GoAbsolute(t))
            <==> (forall t :: t in s.diskMounts ==> Campd.ValidPath(t, false))
    ensures (forall m :: m in p.mounts ==> GoAbsolute(m.source) && GoAbsolute(m.target))
            <==> (forall b :: b in s.binds ==> Campd.ValidPath(b.source, false) && Campd.ValidPath(b.target, false))
  {
    hide GoAbsolute, Campd.ValidPath, Canonical, Pipeline.MeansProcess;
    Pipeline.DefaultDeviceAccepted();
    assert Sdk.DEFAULT_OVERLAY_DEVICE == "/dev/vdb";
    PathIff("/dev/vdb", false);
    PathIff(p.overlayDevice, false);
    forall t | t in p.diskMounts
      ensures GoAbsolute(t) <==> Campd.ValidPath(t, false)
    {
      PathIff(t, false);
    }
    forall m | m in p.mounts
      ensures GoAbsolute(m.source) <==> Campd.ValidPath(m.source, false)
      ensures GoAbsolute(m.target) <==> Campd.ValidPath(m.target, false)
    {
      PathIff(m.source, false);
      PathIff(m.target, false);
    }
  }

  lemma RootfsAccepted(p: Sdk.Process, s: Campd.Sidecar)
    requires MeansSidecar(p, s) && Sdk.MatchesName(p.name)
    ensures Campd.ValidPath(s.rootfs, false)
  {
    hide GoAbsolute, Campd.ValidPath, Pipeline.MeansProcess, Sdk.MatchesName;
    Pipeline.MountPathExact(p.name);
    Pipeline.PathAccepted(s.rootfs, false);
  }

  /** The paths Go looks at in a sidecar. */
  predicate GoodPaths(p: Sdk.Process) {
    && (p.overlayDevice == "" || GoAbsolute(p.overlayDevice))
    && (forall t :: t in p.diskMounts ==> GoAbsolute(t))
    && (forall m :: m in p.mounts ==> GoAbsolute(m.source) && GoAbsolute(m.target))
  }

  lemma CampdSidecar(p: Sdk.Process, s: Campd.Sidecar)
    requires MeansSidecar(p, s) && GoMounts(p) && Sdk.MatchesName(p.name)
    ensures Campd.ValidSidecar(s) <==> GoodPaths(p) && Campd.ApartFrom(Sdk.AllTargets(p), |Sandrun.STANDARD_TARGETS|)
  {
    hide Campd.ValidPath, Pipeline.MeansProcess, Sdk.MatchesName, Campd.ApartFrom, GoAbsolute, GoMounts;
    MountPathsIff(p, s);
    RootfsAccepted(p, s);
    assert Campd.AllTargets(s) == Sdk.AllTargets(p);
  }

  /** Go accepts a sidecar's mounts exactly if campd does and every path is spelled canonically. */
  lemma MountsIff(p: Sdk.Process, s: Campd.Sidecar)
    requires MeansSidecar(p, s) && Sdk.MatchesName(p.name)
    ensures Sdk.ValidMounts(p) <==> Campd.ValidSidecar(s) && GoMounts(p)
  {
    hide Campd.ValidSidecar, MeansSidecar, Sdk.MatchesName, Sdk.ApartFrom, Campd.ApartFrom, GoAbsolute, GoMounts,
         Sdk.AllTargets;
    if Sdk.ValidMounts(p) {
      ValidIsGoMounts(p);
    }
    if GoMounts(p) {
      CampdSidecar(p, s);
      if GoodPaths(p) {
        TargetsOfGood(p);
        ApartIff(Sdk.AllTargets(p), |Sandrun.STANDARD_TARGETS|);
      }
    }
  }

  lemma TargetsOfGood(p: Sdk.Process)
    requires forall t :: t in p.diskMounts ==> GoAbsolute(t)
    requires forall m :: m in p.mounts ==> GoAbsolute(m.target)
    ensures forall t :: t in Sdk.AllTargets(p) ==> GoAbsolute(t)
  {
    hide GoAbsolute;
    forall t | t in Sandrun.STANDARD_TARGETS
      ensures GoAbsolute(t)
    {
      var i :| 0 <= i < |Sandrun.STANDARD_TARGETS| && Sandrun.STANDARD_TARGETS[i] == t;
      Pipeline.StandardAreGoAbsolute(i);
    }
    Sdk.TargetsAreMounts(p.mounts);
  }

  lemma ValidIsGoMounts(p: Sdk.Process)
    requires Sdk.ValidMounts(p)
    ensures GoMounts(p)
  {
    hide GoAbsolute, Canonical, Campd.ValidPath, Sdk.ApartFrom;
    PathIff(p.overlayDevice, false);
    forall t | t in p.diskMounts
      ensures Canonical(t)
    {
      PathIff(t, false);
    }
    forall m | m in p.mounts
      ensures Canonical(m.source) && Canonical(m.target)
    {
      PathIff(m.source, false);
      PathIff(m.target, false);
    }
  }

  // ---------------------------------------------------- whole declarations

  lemma ProcessesMean(spec: Sdk.Spec, c: Campd.Spec)
    requires MeansSpec(spec, c)
    ensures var ps, cs := Sdk.Processes(spec), Campd.Processes(c);
            |ps| == |cs| && forall i :: 0 <= i < |ps| ==> Pipeline.MeansProcess(ps[i], cs[i])
  {
    hide Pipeline.MeansProcess;
  }

  lemma CostMeans(p: Sdk.Process, c: Campd.Process)
    requires Pipeline.MeansProcess(p, c) && GoProcess(p)
    ensures Campd.StartupCost(c) * 1_000_000
            == if p.kind == "run-to-completion" || p.probe.Some? then Sdk.StartupCost(p) else 0
    ensures p.kind != "run-to-completion" && p.probe.None? ==> Sdk.StartupCost(p) == 0
    ensures c.kind.Service? <==> Sdk.ResolvedKind(p.kind) == Sdk.SERVICE
  {
    hide Canonical, Pipeline.MeansUser;
  }

  lemma {:induction false} TotalsMean(ps: seq<Sdk.Process>, cs: seq<Campd.Process>)
    requires |ps| == |cs|
    requires forall i :: 0 <= i < |ps| ==>
               Pipeline.MeansProcess(ps[i], cs[i]) && GoProcess(ps[i]) && Sdk.ValidLifecycle(ps[i])
    ensures Campd.StartupBudget(cs) * 1_000_000 == Sdk.StartupBudget(ps)
    ensures Campd.Services(cs) == Sdk.Services(ps)
    decreases |ps|
  {
    hide Pipeline.MeansProcess, GoProcess, Sdk.ValidLifecycle, Campd.StartupCost, Sdk.StartupCost, Sdk.ResolvedKind;
    if ps != [] {
      var n := |ps| - 1;
      TotalsMean(ps[..n], cs[..n]);
      CostMeans(ps[n], cs[n]);
    }
  }

  lemma NamesMean(ps: seq<Sdk.Process>, cs: seq<Campd.Process>)
    requires |ps| == |cs| && forall i :: 0 <= i < |ps| ==> Pipeline.MeansProcess(ps[i], cs[i])
    ensures Sdk.DistinctNames(ps) <==> Campd.DistinctNames(cs)
  {
    assert forall i :: 0 <= i < |ps| ==> ps[i].name == cs[i].name;
    hide Pipeline.MeansProcess;
  }

  /** Every process, and every sidecar, is accepted on the one side exactly if it is on the other. */
  lemma EachIff(spec: Sdk.Spec, c: Campd.Spec)
    requires MeansSpec(spec, c)
    ensures (forall p :: p in Sdk.Processes(spec) ==> Sdk.ValidProcess(p))
            <==> (forall q :: q in Campd.Processes(c) ==> Campd.ValidProcess(q))
                 && (forall p :: p in Sdk.Processes(spec) ==> GoProcess(p))
  {
    hide Sdk.ValidProcess, Campd.ValidProcess, GoProcess, Pipeline.MeansProcess, MeansSpec, Sdk.Processes,
         Campd.Processes;
    ProcessesMean(spec, c);
    var ps, cs := Sdk.Processes(spec), Campd.Processes(c);
    forall i | 0 <= i < |ps|
      ensures Sdk.ValidProcess(ps[i]) <==> Campd.ValidProcess(cs[i]) && GoProcess(ps[i])
      ensures ps[i] in ps && cs[i] in cs
    {
      ProcessIff(ps[i], cs[i]);
    }
  }

  lemma EachSidecarIff(spec: Sdk.Spec, c: Campd.Spec)
    requires MeansSpec(spec, c) && forall p :: p in Sdk.Processes(spec) ==> Sdk.ValidProcess(p)
    ensures (forall p :: p in spec.sidecars ==> Sdk.ValidMounts(p))
            <==> (forall s :: s in c.sidecars ==> Campd.ValidSidecar(s))
                 && (forall p :: p in spec.sidecars ==> GoMounts(p))
  {
    hide Sdk.ValidMounts, Campd.ValidSidecar, GoMounts, MeansSidecar, Pipeline.MeansProcess;
    forall i | 0 <= i < |spec.sidecars|
      ensures Sdk.ValidMounts(spec.sidecars[i]) <==> Campd.ValidSidecar(c.sidecars[i]) && GoMounts(spec.sidecars[i])
      ensures spec.sidecars[i] in spec.sidecars && c.sidecars[i] in c.sidecars
    {
      assert spec.sidecars[i] in Sdk.Processes(spec);
      MountsIff(spec.sidecars[i], c.sidecars[i]);
    }
  }

  /**
   Exactly how the validators differ. For what a Go declaration means to
   campd, Go accepts the declaration if and only if campd accepts its meaning
   and Go's own demands are met: canonical spelling, no ids beside a user
   name, no timeout for services and no ports for jobs, sidecar options only
   on sidecars, and at most eight ports, each valid and exposed once.
   */
  lemma ValidatorsIff(spec: Sdk.Spec, c: Campd.Spec)
    requires MeansSpec(spec, c)
    ensures Sdk.Accepts(spec) <==> Campd.Accepts(c) && GoSpec(spec)
  {
    hide Sdk.ValidProcess, Campd.ValidProcess, Sdk.ValidMounts, Campd.ValidSidecar, GoProcess, GoMounts,
         Pipeline.MeansProcess, MeansSidecar, Sdk.Ports, Sdk.NoRepeats, Sdk.Processes, Campd.Processes,
         Sdk.StartupBudget, Campd.StartupBudget, Sdk.Services, Campd.Services, Sdk.DistinctNames, Campd.DistinctNames;
    var ps, cs := Sdk.Processes(spec), Campd.Processes(c);
    ProcessesMean(spec, c);
    NamesMean(ps, cs);
    EachIff(spec, c);
    if forall p :: p in ps ==> Sdk.ValidProcess(p) {
      EachSidecarIff(spec, c);
      ValidLifecycles(ps);
      TotalsMean(ps, cs);
    }
  }

  lemma ValidLifecycles(ps: seq<Sdk.Process>)
    requires forall p :: p in ps ==> Sdk.ValidProcess(p)
    ensures forall i :: 0 <= i < |ps| ==> Sdk.ValidLifecycle(ps[i]) && GoProcess(ps[i])
  {
    hide GoProcess, Sdk.ValidLifecycle, Sdk.ValidCommand, Sdk.ValidEnvironment;
    forall i | 0 <= i < |ps|
      ensures Sdk.ValidLifecycle(ps[i]) && GoProcess(ps[i])
    {
      assert ps[i] in ps;
      ValidIsGo(ps[i]);
    }
  }

  /** The declaration campd decodes means what was declared. */
  lemma DecodedMeans(spec: Sdk.Spec)
    requires Sdk.Accepts(spec)
    ensures Pipeline.Decode(Sdk.ToRuntimeSpec(spec)).Some?
    ensures MeansSpec(spec, Pipeline.Decode(Sdk.ToRuntimeSpec(spec)).value)
  {
    hide Sdk.ValidProcess, Sdk.ToRuntimeSpec, Pipeline.Decode, Pipeline.MeansProcess, Sdk.ValidMounts;
    Pipeline.DecodeExact(spec);
    forall i | 0 <= i < |spec.sidecars|
      ensures MeansSidecar(spec.sidecars[i], Pipeline.SpecOf(spec).sidecars[i])
    {
      assert spec.sidecars[i] in Sdk.Processes(spec);
      SidecarMeans(spec.sidecars[i]);
    }
    forall i | 0 <= i < |spec.main|
      ensures Pipeline.MeansProcess(spec.main[i], Pipeline.SpecOf(spec).main[i])
    {
      assert spec.main[i] in Sdk.Processes(spec);
      Pipeline.ProcessMeans(spec.main[i]);
    }
  }

  lemma SidecarMeans(p: Sdk.Process)
    requires Sdk.ValidProcess(p)
    ensures MeansSidecar(p, Pipeline.SidecarOf(p))
  {
    hide Pipeline.MeansProcess;
    Pipeline.ProcessMeans(p);
    Pipeline.MountPathExact(p.name);
  }
}
