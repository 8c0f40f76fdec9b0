/**
 The declaration from end to end: Go `Spec`, wire form, campd's declaration,
 sandrun's command line and sandrun's configuration. JSON and Base64 are taken
 to be lossless; what they leave out when a field is empty is modelled here.
 */
module Pipeline {
  import opened Wrappers
  import opened Paths
  import OriginForm
  import Sandrun
  import Sdk
  import Render
  import Campd
  import Argv

  // ------------------------------------------------------------- decoding

  function DecodeKind(kind: string): Option<Campd.Kind> {
    if kind == Sdk.SERVICE then Some(Campd.Service)
    else if kind == Sdk.RUN_TO_COMPLETION then Some(Campd.RunToCompletion)
    else None
  }

  /** The untagged user: exactly a name, or exactly both ids in range. */
  function DecodeUser(w: Sdk.WireUser): Option<Sandrun.User> {
    if w.name.Some? && w.uid.None? && w.gid.None? then Some(Sandrun.Named(w.name.value))
    else if w.name.None? && w.uid.Some? && w.gid.Some?
            && w.uid.value <= Sandrun.U32_MAX && w.gid.value <= Sandrun.U32_MAX then
      Some(Sandrun.Numeric(w.uid.value, w.gid.value))
    else None
  }

  function DecodeProbe(w: Sdk.WireProbe): Option<Campd.Probe> {
    if 0 <= w.port <= 65_535
       && 0 <= w.startupTimeoutMs <= Campd.U64_MAX && 0 <= w.periodMs <= Campd.U64_MAX
       && 0 <= w.timeoutMs <= Campd.U64_MAX
       && 0 <= w.failureThreshold <= Sandrun.U32_MAX && 0 <= w.successThreshold <= Sandrun.U32_MAX then
      Some(Campd.Probe(w.path, w.port, w.startupTimeoutMs, w.periodMs, w.timeoutMs,
                       w.failureThreshold, w.successThreshold))
    else None
  }

  /** An omitted value decodes to its default, a present one must decode. */
  predicate Decodes<T, U>(present: Option<T>, decoded: Option<U>) {
    present.None? || decoded.Some?
  }

  function DecodeProcess(w: Sdk.WireProcess): Option<Campd.Process> {
    var kind := DecodeKind(w.kind);
    var probe := if w.probe.Some? then DecodeProbe(w.probe.value) else None;
    var user := if w.user.Some? then DecodeUser(w.user.value) else None;
    if kind.Some? && Decodes(w.probe, probe) && Decodes(w.user, user)
       && 0 <= w.completionTimeoutMs <= Campd.U64_MAX then
      Some(Campd.Process(
        w.name, kind.value, w.command, w.env, w.workdir, user, probe,
        if w.completionTimeoutMs == 0 then None else Some(w.completionTimeoutMs)))
    else None
  }

  function DecodeSidecar(w: Sdk.WireSidecar): Option<Campd.Sidecar> {
    var process := DecodeProcess(w.process);
    if process.Some? then
      Some(Campd.Sidecar(
        process.value, w.rootfs, if w.overlayDevice == "" then None else Some(w.overlayDevice),
        w.standardMounts, w.diskMounts, w.binds))
    else None
  }

  function DecodeAll<T, U>(items: seq<T>, decode: T -> Option<U>): Option<seq<U>> {
    if items == [] then Some([])
    else
      var init, last := DecodeAll(items[..|items| - 1], decode), decode(items[|items| - 1]);
      if init.Some? && last.Some? then Some(init.value + [last.value]) else None
  }

  function Decode(w: Sdk.WireSpec): Option<Campd.Spec> {
    var sidecars := DecodeAll(w.sidecars, DecodeSidecar);
    var main := DecodeAll(w.main, DecodeProcess);
    if w.version <= 255 && sidecars.Some? && main.Some? then
      Some(Campd.Spec(w.version, sidecars.value, main.value))
    else None
  }

  // ------------------------------------------- what the declaration means

  function KindOf(p: Sdk.Process): Campd.Kind {
    if Sdk.ResolvedKind(p.kind) == Sdk.RUN_TO_COMPLETION then Campd.RunToCompletion else Campd.Service
  }

  function UserOf(u: Sdk.User): Sandrun.User {
    if u.name != "" then Sandrun.Named(u.name) else Sandrun.Numeric(u.uid, u.gid)
  }

  function ProbeOf(p: Sdk.Probe): Campd.Probe
    requires Sdk.ValidProbe(Sdk.Filled(p))
  {
    var filled := Sdk.Filled(p);
    Campd.Probe(filled.path, filled.port, filled.startupTimeout / Sdk.MILLISECOND, filled.period / Sdk.MILLISECOND,
                filled.timeout / Sdk.MILLISECOND, filled.failureThreshold, filled.successThreshold)
  }

  /** The process campd should see for a process declared in Go. */
  function ProcessOf(p: Sdk.Process): Campd.Process
    requires Sdk.ValidProcess(p)
  {
    Campd.Process(
      p.name, KindOf(p), p.command, p.env, p.workdir,
      if p.user.Some? then Some(UserOf(p.user.value)) else None,
      if p.probe.Some? then Some(ProbeOf(p.probe.value)) else None,
      if KindOf(p).RunToCompletion? then Some(p.timeout / Sdk.MILLISECOND) else None)
  }

  function DeviceOf(p: Sdk.Process): string {
    if p.overlayDevice == "" then Sdk.DEFAULT_OVERLAY_DEVICE else p.overlayDevice
  }

  function SidecarOf(p: Sdk.Process): Campd.Sidecar
    requires Sdk.ValidProcess(p)
  {
    Campd.Sidecar(ProcessOf(p), Sdk.MountPath(p.name), Some(DeviceOf(p)), true, p.diskMounts, p.mounts)
  }

  /** The configuration sandrun should run for a sidecar declared in Go. */
  function ConfigOf(p: Sdk.Process): Sandrun.Config {
    Sandrun.Config(
      "/mnt/sandcamp-sidecars/" + p.name, Some(DeviceOf(p)), Some(p.name),
      if p.workdir == "" then "/" else p.workdir,
      if p.user.Some? then Some(UserOf(p.user.value)) else None,
      true, p.diskMounts, p.mounts, [], p.command)
  }

  function SpecOf(spec: Sdk.Spec): Campd.Spec
    requires forall p :: p in Sdk.Processes(spec) ==> Sdk.ValidProcess(p)
  {
    assert forall p :: p in spec.sidecars || p in spec.main ==> p in Sdk.Processes(spec);
    Campd.Spec(
      Sdk.RUNTIME_SPEC_VERSION,
      seq(|spec.sidecars|, i requires 0 <= i < |spec.sidecars| && spec.sidecars[i] in Sdk.Processes(spec) =>
        SidecarOf(spec.sidecars[i])),
      seq(|spec.main|, i requires 0 <= i < |spec.main| && spec.main[i] in Sdk.Processes(spec) =>
        ProcessOf(spec.main[i])))
  }

  // ---------------------------------------------------- decoding is exact

  lemma DecodeProcessExact(p: Sdk.Process)
    requires Sdk.ValidProcess(p)
    ensures DecodeProcess(Sdk.ToRuntimeProcess(p)) == Some(ProcessOf(p))
  {
    var w := Sdk.ToRuntimeProcess(p);
    if p.probe.Some? {
      assert DecodeProbe(Sdk.ToRuntimeProbe(p.probe.value)) == Some(ProbeOf(p.probe.value));
    }
    if p.user.Some? {
      assert DecodeUser(Sdk.ToRuntimeUser(p.user.value)) == Some(UserOf(p.user.value));
    }
    assert DecodeKind(w.kind) == Some(KindOf(p));
  }

  lemma DecodeSidecarExact(p: Sdk.Process)
    requires Sdk.ValidProcess(p)
    ensures DecodeSidecar(Sdk.ToRuntimeSidecar(p, Sdk.MountPath(p.name))) == Some(SidecarOf(p))
  {
    DecodeProcessExact(p);
  }

  lemma {:induction false} DecodeAllPointwise<T, U>(items: seq<T>, decode: T -> Option<U>, values: seq<U>)
    requires |items| == |values|
    requires forall i :: 0 <= i < |items| ==> decode(items[i]) == Some(values[i])
    ensures DecodeAll(items, decode) == Some(values)
    decreases items
  {
    if items != [] {
      var n := |items| - 1;
      DecodeAllPointwise(items[..n], decode, values[..n]);
      assert values[..n] + [values[n]] == values;
    } else {
      assert values == [];
    }
  }

  lemma DecodeExact(spec: Sdk.Spec)
    requires forall p :: p in Sdk.Processes(spec) ==> Sdk.ValidProcess(p)
    ensures Decode(Sdk.ToRuntimeSpec(spec)) == Some(SpecOf(spec))
  {
    var w, c := Sdk.ToRuntimeSpec(spec), SpecOf(spec);
    forall i | 0 <= i < |spec.sidecars|
      ensures DecodeSidecar(w.sidecars[i]) == Some(c.sidecars[i])
    {
      assert spec.sidecars[i] in Sdk.Processes(spec);
      DecodeSidecarExact(spec.sidecars[i]);
    }
    forall i | 0 <= i < |spec.main|
      ensures DecodeProcess(w.main[i]) == Some(c.main[i])
    {
      assert spec.main[i] in Sdk.Processes(spec);
      DecodeProcessExact(spec.main[i]);
    }
    DecodeAllPointwise(w.sidecars, DecodeSidecar, c.sidecars);
    DecodeAllPointwise(w.main, DecodeProcess, c.main);
  }

  // --------------------------------------------- Go accepts, campd accepts

  lemma NamesAgree(s: string)
    ensures Sdk.MatchesName(s) <==> Campd.ValidName(s)
    ensures Sdk.MatchesUserName(s) <==> Sandrun.ValidUserName(s)
    ensures Sdk.MatchesEnvironment(s) <==> Campd.ValidEnvironmentName(s)
  {
    if s != "" {
      assert s == [s[0]] + s[1..];
      assert forall c :: c in s <==> c == s[0] || c in s[1..];
    }
  }

  lemma PathAccepted(s: string, allowRoot: bool)
    requires if allowRoot then GoAbsoluteAllowRoot(s) else GoAbsolute(s)
    ensures Campd.ValidPath(s, allowRoot)
  {
    GoAcceptsIffRustAcceptsCanonical(s, allowRoot);
  }

  lemma EnvironmentAccepted(env: map<string, string>)
    requires Sdk.ValidEnvironment(env)
    ensures Campd.ValidEnvironment(env)
  {
    forall key | key in env
      ensures Campd.ValidEnvironmentName(key) && '\0' !in env[key] && key != Campd.SPEC_ENVIRONMENT
    {
      NamesAgree(key);
    }
  }

  /** Milliseconds of a valid duration. */
  lemma DurationInMilliseconds(d: int, low: int, high: int)
    requires Sdk.ValidDuration(d, low * Sdk.MILLISECOND, high * Sdk.MILLISECOND)
    ensures low <= d / Sdk.MILLISECOND <= high && d == (d / Sdk.MILLISECOND) * Sdk.MILLISECOND
  {
  }

  lemma ProbeAccepted(p: Sdk.Probe)
    requires Sdk.ValidProbe(Sdk.Filled(p))
    ensures Campd.ValidProbe(ProbeOf(p))
    ensures ProbeOf(p).startupTimeoutMs * Sdk.MILLISECOND == Sdk.Filled(p).startupTimeout
  {
    var f := Sdk.Filled(p);
    DurationInMilliseconds(f.startupTimeout, 1_000, 30_000);
    DurationInMilliseconds(f.period, 100, 30_000);
    DurationInMilliseconds(f.timeout, 100, 30_000);
  }

  lemma LifecycleAccepted(p: Sdk.Process)
    requires Sdk.ValidProcess(p)
    ensures Campd.ValidLifecycle(ProcessOf(p))
    ensures Campd.StartupCost(ProcessOf(p)) * Sdk.MILLISECOND == Sdk.StartupCost(p)
  {
    if p.probe.Some? {
      ProbeAccepted(p.probe.value);
    }
    if KindOf(p).RunToCompletion? {
      DurationInMilliseconds(p.timeout, 100, 30_000);
    }
  }

  lemma ProcessAccepted(p: Sdk.Process)
    requires Sdk.ValidProcess(p)
    ensures Campd.ValidProcess(ProcessOf(p))
  {
    NamesAgree(p.name);
    PathAccepted(p.command[0], false);
    if p.workdir != "" {
      PathAccepted(p.workdir, true);
    }
    EnvironmentAccepted(p.env);
    LifecycleAccepted(p);
    if p.user.Some? {
      NamesAgree(p.user.value.name);
    }
  }

  lemma StandardAreGoAbsolute(i: nat)
    requires i < 7
    ensures GoAbsolute(Sandrun.STANDARD_TARGETS[i])
  {
    Argv.StandardIsText(i);
    TextIsGoAbsolute(Argv.StandardNames(i), Sandrun.STANDARD_TARGETS[i]);
  }

  lemma TextIsGoAbsolute(names: seq<string>, text: string)
    requires AllPlain(names) && text == Text(names) && '\0' !in text && text != "/"
    ensures GoAbsolute(text)
  {
    CleanCanonical(names);
    GoCleanIsCanonical(text);
  }

  lemma TargetsAccepted(targets: seq<string>, from: nat)
    requires forall t :: t in targets ==> GoAbsolute(t)
    requires Sdk.ApartFrom(targets, from)
    ensures Campd.ApartFrom(targets, from)
  {
    forall i, j | 0 <= j < i < |targets| && from <= i
      ensures !ComponentsOverlap(targets[i], targets[j])
    {
      OverlapTestsAgree(targets[j], targets[i]);
    }
  }

  lemma AllTargetsAreGoAbsolute(p: Sdk.Process)
    requires Sdk.ValidMounts(p)
    ensures forall t :: t in Sdk.AllTargets(p) ==> GoAbsolute(t)
  {
    forall t | t in Sandrun.STANDARD_TARGETS
      ensures GoAbsolute(t)
    {
      var i :| 0 <= i < |Sandrun.STANDARD_TARGETS| && Sandrun.STANDARD_TARGETS[i] == t;
      StandardAreGoAbsolute(i);
    }
    Sdk.TargetsAreMounts(p.mounts);
  }

  /** An image's mount path is its name below the mount root, unchanged. */
  lemma MountPathExact(name: string)
    requires Sdk.MatchesName(name)
    ensures Sdk.MountPath(name) == "/mnt/sandcamp-sidecars/" + name
    ensures GoAbsolute(Sdk.MountPath(name))
  {
    var names := ["mnt", "sandcamp-sidecars", name];
    NameIsPlain(name);
    assert AllPlain(names);
    MountText(name);
    CleanCanonical(names);
    GoCleanIsCanonical(Text(names));
    NameIsSafe(name);
    assert '\0' !in "/mnt/sandcamp-sidecars/";
  }

  lemma MountText(name: string)
    ensures Text(["mnt", "sandcamp-sidecars", name]) == "/mnt/sandcamp-sidecars/" + name
  {
    hide Text;
    ThreeNames("mnt", "sandcamp-sidecars", name);
    assert "/mnt/sandcamp-sidecars/" == "/" + "mnt" + "/" + "sandcamp-sidecars" + "/";
  }

  lemma NameIsSafe(name: string)
    requires Sdk.MatchesName(name)
    ensures '/' !in name && '\0' !in name
  {
    forall c | c in name
      ensures c != '/' && c != '\0'
    {
      assert name == [name[0]] + name[1..];
      assert c == name[0] || c in name[1..];
      assert OriginForm.IsAlphanumeric(c) || c in "_.-";
      assert forall d :: d in "_.-" ==> d == '_' || d == '.' || d == '-';
    }
  }

  lemma NameIsPlain(name: string)
    requires Sdk.MatchesName(name)
    ensures IsPlain(name)
  {
    NameIsSafe(name);
    assert name[0] != '.';
  }

  lemma DefaultDeviceNames()
    ensures AllPlain(["dev", "vdb"]) && Sdk.DEFAULT_OVERLAY_DEVICE == Text(["dev", "vdb"])
  {
    hide Text;
    TwoNames("dev", "vdb");
  }

  lemma DefaultDeviceAccepted()
    ensures GoAbsolute(Sdk.DEFAULT_OVERLAY_DEVICE)
  {
    hide Text, AllPlain, GoClean;
    DefaultDeviceNames();
    TextIsGoAbsolute(["dev", "vdb"], Sdk.DEFAULT_OVERLAY_DEVICE);
  }

  lemma SidecarAccepted(p: Sdk.Process)
    requires Sdk.ValidProcess(p) && Sdk.ValidMounts(p)
    ensures Campd.ValidSidecar(SidecarOf(p))
  {
    var s := SidecarOf(p);
    MountPathExact(p.name);
    PathAccepted(Sdk.MountPath(p.name), false);
    DefaultDeviceAccepted();
    PathAccepted(DeviceOf(p), false);
    forall t | t in p.diskMounts
      ensures Campd.ValidPath(t, false)
    {
      PathAccepted(t, false);
    }
    forall b | b in p.mounts
      ensures Campd.ValidPath(b.source, false) && Campd.ValidPath(b.target, false)
    {
      PathAccepted(b.source, false);
      PathAccepted(b.target, false);
    }
    AllTargetsAreGoAbsolute(p);
    assert Campd.AllTargets(s) == Sdk.AllTargets(p);
    TargetsAccepted(Sdk.AllTargets(p), |Sandrun.STANDARD_TARGETS|);
  }

  lemma {:induction false} BudgetsAgree(ps: seq<Sdk.Process>, cs: seq<Campd.Process>)
    requires |ps| == |cs|
    requires forall i :: 0 <= i < |ps| ==> Sdk.ValidProcess(ps[i]) && cs[i] == ProcessOf(ps[i])
    ensures Campd.StartupBudget(cs) * Sdk.MILLISECOND == Sdk.StartupBudget(ps)
    ensures Campd.Services(cs) == Sdk.Services(ps)
    decreases ps
  {
    if ps != [] {
      var n := |ps| - 1;
      BudgetsAgree(ps[..n], cs[..n]);
      LifecycleAccepted(ps[n]);
    }
  }

  lemma ProcessesCorrespond(spec: Sdk.Spec)
    requires forall p :: p in Sdk.Processes(spec) ==> Sdk.ValidProcess(p)
    ensures var ps, cs := Sdk.Processes(spec), Campd.Processes(SpecOf(spec));
            |ps| == |cs| && forall i :: 0 <= i < |ps| ==> Sdk.ValidProcess(ps[i]) && cs[i] == ProcessOf(ps[i])
  {
    hide ProcessOf, Sdk.ValidProcess;
    var ps, cs := Sdk.Processes(spec), Campd.Processes(SpecOf(spec));
    forall i | 0 <= i < |ps|
      ensures Sdk.ValidProcess(ps[i]) && cs[i] == ProcessOf(ps[i])
    {
      assert ps[i] in ps;
    }
  }

  lemma NamesCorrespond(spec: Sdk.Spec)
    requires forall p :: p in Sdk.Processes(spec) ==> Sdk.ValidProcess(p)
    requires Sdk.DistinctNames(Sdk.Processes(spec))
    ensures Campd.DistinctNames(Campd.Processes(SpecOf(spec)))
  {
    hide Sdk.ValidProcess, Sdk.Processes, Campd.Processes, SpecOf;
    ProcessesCorrespond(spec);
  }

  /** Everything Go accepts, campd accepts, process by process and as a whole. */
  lemma SpecAccepted(spec: Sdk.Spec)
    requires Sdk.Accepts(spec)
    ensures Campd.Accepts(SpecOf(spec))
  {
    hide Sdk.ValidProcess, Campd.ValidProcess, Campd.ValidSidecar, Sdk.ValidMounts, Sdk.NoSidecarOptions;
    var ps, c := Sdk.Processes(spec), SpecOf(spec);
    var cs := Campd.Processes(c);
    ProcessesCorrespond(spec);
    BudgetsAgree(ps, cs);
    forall p | p in cs
      ensures Campd.ValidProcess(p)
    {
      var i :| 0 <= i < |cs| && cs[i] == p;
      ProcessAccepted(ps[i]);
    }
    forall s | s in c.sidecars
      ensures Campd.ValidSidecar(s)
    {
      var i :| 0 <= i < |c.sidecars| && c.sidecars[i] == s;
      assert spec.sidecars[i] in ps;
      SidecarAccepted(spec.sidecars[i]);
    }
    NamesCorrespond(spec);
  }

  lemma ConfigAgrees(p: Sdk.Process)
    requires Sdk.ValidProcess(p)
    ensures Argv.ConfigOf(SidecarOf(p)) == ConfigOf(p)
  {
    MountPathExact(p.name);
  }

  // --------------------------------------------------------- main theorem

  /** Milliseconds that stand for a declared duration, or for its default where none is declared. */
  predicate MeansDuration(declared: int, default: int, ms: nat) {
    ms * 1_000_000 == if declared == 0 then default else declared
  }

  predicate MeansCount(declared: int, default: int, count: nat) {
    count == if declared == 0 then default else declared
  }

  predicate MeansProbe(p: Sdk.Probe, c: Campd.Probe) {
    && c.path == p.path && c.port == p.port
    && MeansDuration(p.startupTimeout, 8_000_000_000, c.startupTimeoutMs)
    && MeansDuration(p.period, 500_000_000, c.periodMs)
    && MeansDuration(p.timeout, 1_000_000_000, c.timeoutMs)
    && MeansCount(p.failureThreshold, 3, c.failureThreshold)
    && MeansCount(p.successThreshold, 1, c.successThreshold)
  }

  /** A user is a name, or two ids where the name is empty. */
  predicate MeansUser(p: Option<Sdk.User>, c: Option<Sandrun.User>) {
    match p
    case None => c == None
    case Some(u) =>
      c.Some? && match c.value
                 case Named(name) => u.name != "" && name == u.name
                 case Numeric(uid, gid) => u.name == "" && uid == u.uid && gid == u.gid
  }

  /** campd's process says what the process declared in Go says, defaults filled in. */
  predicate MeansProcess(p: Sdk.Process, c: Campd.Process) {
    && c.name == p.name && c.command == p.command && c.env == p.env && c.workdir == p.workdir
    && (c.kind.Service? <==> p.kind == "" || p.kind == "service")
    && (c.kind.RunToCompletion? <==> p.kind == "run-to-completion")
    && MeansUser(p.user, c.user)
    && (c.probe.Some? <==> p.probe.Some?) && (p.probe.Some? ==> MeansProbe(p.probe.value, c.probe.value))
    && (c.completionTimeoutMs.Some? <==> c.kind.RunToCompletion?)
    && (c.completionTimeoutMs.Some? ==> c.completionTimeoutMs.value * 1_000_000 == p.timeout)
  }

  /** sandrun's configuration says what the sidecar declared in Go says. */
  predicate MeansConfig(p: Sdk.Process, c: Sandrun.Config) {
    && c.rootfs == "/mnt/sandcamp-sidecars/" + p.name
    && c.overlayDevice == Some(if p.overlayDevice == "" then "/dev/vdb" else p.overlayDevice)
    && c.overlayId == Some(p.name)
    && c.workdir == (if p.workdir == "" then "/" else p.workdir)
    && MeansUser(p.user, c.user)
    && c.standardMounts && c.diskMounts == p.diskMounts && c.binds == p.mounts && c.tmpfs == []
    && c.command == p.command
  }

  /** Who a main process runs as: the declared ids, or those `/etc/passwd` has for the declared name. */
  predicate MeansIdentity(p: Sdk.Process, passwd: map<string, Campd.Identity>, identity: Option<Campd.Identity>) {
    match p.user
    case None => identity == None
    case Some(u) =>
      && identity.Some?
      && if u.name != "" then u.name in passwd && identity.value == passwd[u.name]
         else identity.value.uid == u.uid && identity.value.gid == u.gid
  }

  lemma ProcessMeans(p: Sdk.Process)
    requires Sdk.ValidProcess(p)
    ensures MeansProcess(p, ProcessOf(p))
  {
    if p.probe.Some? {
      ProbeMeans(p.probe.value);
    }
  }

  lemma ProbeMeans(p: Sdk.Probe)
    requires Sdk.ValidProbe(Sdk.Filled(p))
    ensures MeansProbe(p, ProbeOf(p))
  {
  }

  lemma ConfigMeans(p: Sdk.Process)
    ensures MeansConfig(p, ConfigOf(p))
  {
  }

  /**
   Whatever `RenderStart` accepts survives the whole pipeline: its one
   environment variable holds a text within campd's size limit; campd decodes
   and accepts it, and each of its processes says what was declared in Go; for
   every sidecar sandrun parses campd's command line into exactly the root
   file system, device, identity, directory, user, mounts and command that
   were declared, and it starts with the declared environment.
   */
  lemma PipelinePreservesMeaning(images: Render.ImageSet, spec: Sdk.Spec, encoder: Sdk.WireSpec -> string)
    requires Render.Renders(images, spec, encoder)
    ensures Render.Configured(spec, encoder(Sdk.ToRuntimeSpec(spec))).env
            == map[Campd.SPEC_ENVIRONMENT := encoder(Sdk.ToRuntimeSpec(spec))]
    ensures |encoder(Sdk.ToRuntimeSpec(spec))| <= Campd.MAX_ENCODED_BYTES
    ensures var decoded := Decode(Sdk.ToRuntimeSpec(spec));
            && decoded.Some?
            && Campd.Accepts(decoded.value)
            && |decoded.value.sidecars| == |spec.sidecars| && |decoded.value.main| == |spec.main|
            && (forall i :: 0 <= i < |spec.sidecars| ==>
                  MeansProcess(spec.sidecars[i], decoded.value.sidecars[i].process))
            && (forall i :: 0 <= i < |spec.main| ==> MeansProcess(spec.main[i], decoded.value.main[i]))
            && forall i :: 0 <= i < |spec.sidecars| ==>
                 var parsed := Sandrun.Parse(Argv.SidecarArgs(decoded.value.sidecars[i]));
                 && parsed.Ok? && MeansConfig(spec.sidecars[i], parsed.value)
                 && decoded.value.sidecars[i].process.env - {Campd.SPEC_ENVIRONMENT} == spec.sidecars[i].env
  {
    hide MeansProcess, MeansConfig, Sdk.ToRuntimeSpec, Campd.Accepts, Sandrun.Parse, Argv.SidecarArgs;
    DecodeExact(spec);
    SpecAccepted(spec);
    forall i | 0 <= i < |spec.sidecars|
      ensures var c := SpecOf(spec).sidecars[i];
              && MeansProcess(spec.sidecars[i], c.process)
              && Sandrun.Parse(Argv.SidecarArgs(c)).Ok?
              && MeansConfig(spec.sidecars[i], Sandrun.Parse(Argv.SidecarArgs(c)).value)
              && c.process.env - {Campd.SPEC_ENVIRONMENT} == spec.sidecars[i].env
    {
      assert spec.sidecars[i] in Sdk.Processes(spec) && spec.sidecars[i] in spec.sidecars;
      SidecarMeans(spec.sidecars[i]);
    }
    forall i | 0 <= i < |spec.main|
      ensures MeansProcess(spec.main[i], SpecOf(spec).main[i])
    {
      assert spec.main[i] in Sdk.Processes(spec);
      ProcessMeans(spec.main[i]);
    }
  }

  lemma SidecarMeans(p: Sdk.Process)
    requires Sdk.ValidProcess(p) && Sdk.ValidMounts(p)
    ensures MeansProcess(p, SidecarOf(p).process)
    ensures var parsed := Sandrun.Parse(Argv.SidecarArgs(SidecarOf(p))); parsed.Ok? && MeansConfig(p, parsed.value)
    ensures SidecarOf(p).process.env - {Campd.SPEC_ENVIRONMENT} == p.env
  {
    hide MeansProcess, MeansConfig, Sandrun.Parse, Argv.SidecarArgs;
    ProcessMeans(p);
    SidecarAccepted(p);
    ProcessAccepted(p);
    Argv.ParseInvertsBuild(SidecarOf(p));
    ConfigAgrees(p);
    ConfigMeans(p);
    EnvironmentExact(p);
  }

  /**
   The same for main processes: if every named user is known, each is
   launched with the declared program, arguments and directory, with the
   declared environment on top of campd's own less the declaration itself,
   and as the declared user.
   */
  lemma MainsPreserveMeaning(
      images: Render.ImageSet, spec: Sdk.Spec, encoder: Sdk.WireSpec -> string,
      passwd: map<string, Campd.Identity>, sandrun: string, inherited: map<string, string>, i: nat)
    requires Render.Renders(images, spec, encoder) && i < |spec.main|
    requires Decode(Sdk.ToRuntimeSpec(spec)).Some?
             && Campd.AllUsersKnown(Decode(Sdk.ToRuntimeSpec(spec)).value.main, passwd)
    ensures var launches := Campd.Launches(Decode(Sdk.ToRuntimeSpec(spec)).value, passwd);
            var p := spec.main[i];
            && |launches| == |spec.sidecars| + |spec.main|
            && var launch := launches[|spec.sidecars| + i];
               && launch.MainLaunch? && launch.Process().command != []
               && MeansIdentity(p, passwd, launch.identity)
               && var c := Argv.CommandOf(launch, sandrun, inherited);
                  && [c.program] + c.args == p.command
                  && c.directory == (if p.workdir == "" then None else Some(p.workdir))
                  && c.env == inherited - {"SANDCAMP_SPEC"} + p.env
  {
    hide Render.Renders, Sdk.ToRuntimeSpec, Sdk.Accepts, Sdk.ValidProcess, Decode, ProcessOf, MeansIdentity;
    hide Campd.RunsAs, Campd.AllUsersKnown, Campd.Launches, Campd.Processes, Argv.CommandOf;
    RenderedIsAccepted(images, spec, encoder);
    var decoded := DecodedMain(spec, i);
    Campd.LaunchesMeaning(decoded, passwd);
    CountProcesses(decoded);
    var launch := Campd.Launches(decoded, passwd)[|decoded.sidecars| + i];
    MainMeans(spec.main[i], passwd, launch, sandrun, inherited);
  }

  lemma RenderedIsAccepted(images: Render.ImageSet, spec: Sdk.Spec, encoder: Sdk.WireSpec -> string)
    requires Render.Renders(images, spec, encoder)
    ensures Sdk.Accepts(spec)
  {
  }

  lemma CountProcesses(spec: Campd.Spec)
    ensures |Campd.Processes(spec)| == |spec.sidecars| + |spec.main|
  {
  }

  lemma DecodedMain(spec: Sdk.Spec, i: nat) returns (decoded: Campd.Spec)
    requires Sdk.Accepts(spec) && i < |spec.main|
    ensures Decode(Sdk.ToRuntimeSpec(spec)) == Some(decoded)
    ensures |decoded.sidecars| == |spec.sidecars| && |decoded.main| == |spec.main|
    ensures Sdk.ValidProcess(spec.main[i]) && decoded.main[i] == ProcessOf(spec.main[i])
  {
    hide Sdk.ToRuntimeSpec, Sdk.ValidProcess, Decode, ProcessOf, SidecarOf;
    DecodeExact(spec);
    decoded := SpecOf(spec);
    assert spec.main[i] in Sdk.Processes(spec);
  }

  lemma MainMeans(p: Sdk.Process, passwd: map<string, Campd.Identity>, launch: Campd.Launch, sandrun: string,
                  inherited: map<string, string>)
    requires Sdk.ValidProcess(p) && launch.MainLaunch? && launch.main == ProcessOf(p)
    requires Campd.RunsAs(ProcessOf(p), passwd, launch.identity)
    ensures launch.Process().command != [] && MeansIdentity(p, passwd, launch.identity)
    ensures var c := Argv.CommandOf(launch, sandrun, inherited);
            && [c.program] + c.args == p.command
            && c.directory == (if p.workdir == "" then None else Some(p.workdir))
            && c.env == inherited - {"SANDCAMP_SPEC"} + p.env
  {
    assert (inherited + p.env) - {"SANDCAMP_SPEC"} == inherited - {"SANDCAMP_SPEC"} + p.env;
  }

  /** The environment a sidecar starts with is the declared one, unchanged. */
  lemma EnvironmentExact(p: Sdk.Process)
    requires Sdk.ValidProcess(p)
    ensures ProcessOf(p).env - {Campd.SPEC_ENVIRONMENT} == p.env
  {
  }

  /** Sidecars with different names never share a root file system. */
  lemma RootsAreDistinct(a: string, b: string)
    requires Sdk.MatchesName(a) && Sdk.MatchesName(b) && Sdk.MountPath(a) == Sdk.MountPath(b)
    ensures a == b
  {
    MountPathExact(a);
    MountPathExact(b);
    var root := "/mnt/sandcamp-sidecars/";
    assert a == (root + a)[|root|..] == (root + b)[|root|..] == b;
  }
}
