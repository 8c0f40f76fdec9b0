/**
 The command line campd builds for a sidecar, and the proof that sandrun's
 parser reads back exactly what was declared.
 */
module Argv {
  import opened Wrappers
  import opened Paths
  import opened Campd
  import opened Sequences
  import Sandrun
  import opened Options = Sandrun

  datatype Invocation = Invocation(
    program: string,
    args: seq<string>,
    directory: Option<string>,
    env: map<string, string>)

  function DiskArgs(disks: seq<string>): seq<string> {
    if disks == [] then [] else [FlagText(DiskMount), disks[0]] + DiskArgs(disks[1..])
  }

  function BindArg(bind: Sandrun.Bind): seq<string> {
    [if bind.readonly then FlagText(ReadonlyBind) else FlagText(BindMount), bind.source, bind.target]
  }

  function BindArgs(binds: seq<Sandrun.Bind>): seq<string> {
    if binds == [] then [] else BindArg(binds[0]) + BindArgs(binds[1..])
  }

  function DeviceArgs(device: Option<string>): seq<string> {
    if device.Some? then [FlagText(OverlayDevice), device.value] else []
  }

  function StandardArgs(standard: bool): seq<string> {
    if standard then [FlagText(StandardMounts)] else []
  }

  function WorkdirArgs(workdir: string): seq<string> {
    if workdir == "" then [] else [FlagText(Workdir), workdir]
  }

  function UserArgs(user: Option<Sandrun.User>): seq<string> {
    match user
    case None => []
    case Some(Named(name)) => [FlagText(UserName), name]
    case Some(Numeric(uid, gid)) => [FlagText(Uid), Sandrun.Decimal(uid)] + [FlagText(Gid), Sandrun.Decimal(gid)]
  }

  /** The arguments in front of the mounts. */
  function Head(s: Sidecar): seq<string> {
    [FlagText(Rootfs), s.rootfs]
    + (DeviceArgs(s.overlayDevice) + ([FlagText(OverlayId), s.process.name] + StandardArgs(s.standardMounts)))
  }

  /** The arguments behind the mounts, with the command. */
  function Tail(p: Process): seq<string> {
    WorkdirArgs(p.workdir) + (UserArgs(p.user) + (["--"] + p.command))
  }

  function SidecarArgs(s: Sidecar): seq<string> {
    Head(s) + (DiskArgs(s.diskMounts) + (BindArgs(s.binds) + Tail(s.process)))
  }

  /** The command of one launch: a main process as it is, a sidecar through sandrun in an environment of its own. */
  function CommandOf(launch: Launch, sandrun: string, inherited: map<string, string>): Invocation
    requires launch.Process().command != []
  {
    match launch
    case MainLaunch(p, _) =>
      Invocation(p.command[0], p.command[1..], if p.workdir == "" then None else Some(p.workdir),
                 (inherited + p.env) - {SPEC_ENVIRONMENT})
    case SidecarLaunch(s) =>
      Invocation(sandrun, SidecarArgs(s), None, s.process.env - {SPEC_ENVIRONMENT})
  }

  /** `build_command`. */
  method BuildCommand(launch: Launch, sandrun: string, inherited: map<string, string>) returns (c: Invocation)
    requires launch.Process().command != []
    ensures c == CommandOf(launch, sandrun, inherited)
    ensures launch.SidecarLaunch? ==> c == Invocation(
      sandrun, SidecarArgs(launch.sidecar), None, launch.sidecar.process.env - {SPEC_ENVIRONMENT})
    ensures launch.MainLaunch? ==> c == Invocation(
      launch.main.command[0], launch.main.command[1..],
      if launch.main.workdir == "" then None else Some(launch.main.workdir),
      (inherited + launch.main.env) - {SPEC_ENVIRONMENT})
  {
    match launch {
      case MainLaunch(p, _) =>
        c := Invocation(p.command[0], p.command[1..],
                        if p.workdir == "" then None else Some(p.workdir),
                        (inherited + p.env) - {SPEC_ENVIRONMENT});
      case SidecarLaunch(s) =>
        var args := SidecarArguments(s);
        c := Invocation(sandrun, args, None, s.process.env - {SPEC_ENVIRONMENT});
    }
  }

  /** The arguments of sandrun. */
  method SidecarArguments(s: Sidecar) returns (args: seq<string>)
    ensures args == SidecarArgs(s)
  {
    args := HeadArguments(s);
    args := AppendMounts(args, s.diskMounts, s.binds);
    var tail := TailArguments(s.process);
    Regrouped(Head(s) + DiskArgs(s.diskMounts), BindArgs(s.binds), tail);
    Regrouped(Head(s), DiskArgs(s.diskMounts), BindArgs(s.binds) + tail);
    args := args + tail;
  }

  method HeadArguments(s: Sidecar) returns (args: seq<string>)
    ensures args == Head(s)
  {
    args := [FlagText(Rootfs), s.rootfs];
    if s.overlayDevice.Some? {
      args := args + [FlagText(OverlayDevice), s.overlayDevice.value];
    }
    args := args + [FlagText(OverlayId), s.process.name];
    if s.standardMounts {
      args := args + [FlagText(StandardMounts)];
    }
  }

  /** The two mount loops. */
  method AppendMounts(before: seq<string>, disks: seq<string>, binds: seq<Sandrun.Bind>) returns (args: seq<string>)
    ensures args == before + DiskArgs(disks) + BindArgs(binds)
  {
    hide FlagText;
    args := before;
    for i := 0 to |disks|
      invariant args + DiskArgs(disks[i..]) == before + DiskArgs(disks)
    {
      assert disks[i..][1..] == disks[i + 1..];
      args := args + [FlagText(DiskMount), disks[i]];
    }
    for i := 0 to |binds|
      invariant args + BindArgs(binds[i..]) == before + DiskArgs(disks) + BindArgs(binds)
    {
      assert binds[i..][1..] == binds[i + 1..];
      var bind := binds[i];
      args := args + [if bind.readonly then FlagText(ReadonlyBind) else FlagText(BindMount), bind.source, bind.target];
    }
  }

  method TailArguments(p: Process) returns (args: seq<string>)
    ensures args == Tail(p)
  {
    args := [];
    if p.workdir != "" {
      args := args + [FlagText(Workdir), p.workdir];
    }
    match p.user {
      case None =>
      case Some(Named(name)) => args := args + [FlagText(UserName), name];
      case Some(Numeric(uid, gid)) =>
        args := args + [FlagText(Uid), Sandrun.Decimal(uid), FlagText(Gid), Sandrun.Decimal(gid)];
    }
    args := args + ["--"];
    args := args + p.command;
  }

  /** The configuration a declared sidecar stands for. */
  function ConfigOf(s: Sidecar): Sandrun.Config {
    Sandrun.Config(
      s.rootfs, s.overlayDevice, Some(s.process.name), WorkdirOf(s.process),
      s.process.user, s.standardMounts, s.diskMounts, s.binds, [], s.process.command)
  }

  // ------------------------------------------------------ reading it back

  /** One option with one value in front of anything. */
  lemma ReadOne(flag: Flag, v: string, post: seq<string>, o: Sandrun.Options)
    requires Sandrun.Arity(flag) == 1 && Sandrun.Assign(flag, v, o).Ok?
    ensures Sandrun.ReadOptions([FlagText(flag), v] + post, o)
            == Sandrun.ReadOptions(post, Sandrun.Assign(flag, v, o).value)
  {
    SpellingIsRead(flag);
    ReadOneSpelled(FlagText(flag), flag, v, post, o);
  }

  lemma ReadOneSpelled(name: string, flag: Flag, v: string, post: seq<string>, o: Sandrun.Options)
    requires Sandrun.Spells(name, flag)
    requires Sandrun.Arity(flag) == 1 && Sandrun.Assign(flag, v, o).Ok?
    ensures Sandrun.ReadOptions([name, v] + post, o)
            == Sandrun.ReadOptions(post, Sandrun.Assign(flag, v, o).value)
  {
    var args := [name, v] + post;
    assert args[0] == name && args[1] == v && args[2..] == post;
  }

  lemma ReadOneDisk(target: string, post: seq<string>, o: Sandrun.Options)
    ensures Sandrun.ReadOptions([FlagText(DiskMount), target] + post, o)
            == Sandrun.ReadOptions(post, o.(diskMounts := o.diskMounts + [target]))
  {
    ReadOne(DiskMount, target, post, o);
  }

  lemma {:induction false} ReadDisks(disks: seq<string>, post: seq<string>, o: Sandrun.Options)
    ensures Sandrun.ReadOptions(DiskArgs(disks) + post, o)
            == Sandrun.ReadOptions(post, o.(diskMounts := o.diskMounts + disks))
    decreases disks
  {
    hide Sandrun.ReadOptions, FlagText;
    if disks == [] {
      assert o.diskMounts + disks == o.diskMounts && DiskArgs(disks) + post == post;
    } else {
      var one, more := [FlagText(DiskMount), disks[0]], DiskArgs(disks[1..]) + post;
      assert DiskArgs(disks) + post == one + more;
      ReadOneDisk(disks[0], more, o);
      assert o.diskMounts + [disks[0]] + disks[1..] == o.diskMounts + disks;
      ReadDisks(disks[1..], post, o.(diskMounts := o.diskMounts + [disks[0]]));
    }
  }

  lemma ReadOneBind(bind: Sandrun.Bind, post: seq<string>, o: Sandrun.Options)
    ensures Sandrun.ReadOptions(BindArg(bind) + post, o)
            == Sandrun.ReadOptions(post, o.(binds := o.binds + [bind]))
  {
    var flag := if bind.readonly then ReadonlyBind else BindMount;
    SpellingIsRead(flag);
    ReadBindSpelled(FlagText(flag), flag, bind, post, o);
  }

  lemma ReadBindSpelled(name: string, flag: Flag, bind: Sandrun.Bind, post: seq<string>, o: Sandrun.Options)
    requires Sandrun.Spells(name, flag) && flag == if bind.readonly then ReadonlyBind else BindMount
    ensures Sandrun.ReadOptions([name, bind.source, bind.target] + post, o)
            == Sandrun.ReadOptions(post, o.(binds := o.binds + [bind]))
  {
    var args := [name, bind.source, bind.target] + post;
    assert args[0] == name && args[1] == bind.source && args[2] == bind.target && args[3..] == post;
  }

  lemma {:induction false} ReadBinds(binds: seq<Sandrun.Bind>, post: seq<string>, o: Sandrun.Options)
    ensures Sandrun.ReadOptions(BindArgs(binds) + post, o)
            == Sandrun.ReadOptions(post, o.(binds := o.binds + binds))
    decreases binds
  {
    hide Sandrun.ReadOptions, FlagText;
    if binds == [] {
      assert o.binds + binds == o.binds && BindArgs(binds) + post == post;
    } else {
      var more := BindArgs(binds[1..]) + post;
      assert BindArgs(binds) + post == BindArg(binds[0]) + more;
      ReadOneBind(binds[0], more, o);
      assert o.binds + [binds[0]] + binds[1..] == o.binds + binds;
      ReadBinds(binds[1..], post, o.(binds := o.binds + [binds[0]]));
    }
  }

  function WithUser(o: Sandrun.Options, user: Option<Sandrun.User>): Sandrun.Options {
    match user
    case None => o
    case Some(Named(name)) => o.(userName := Some(name))
    case Some(Numeric(uid, gid)) => o.(uid := Some(uid), gid := Some(gid))
  }

  lemma ReadUser(user: Option<Sandrun.User>, post: seq<string>, o: Sandrun.Options)
    requires o.userName.None? && o.uid.None? && o.gid.None?
    requires user.Some? ==> ValidUser(user.value)
    ensures Sandrun.ReadOptions(UserArgs(user) + post, o) == Sandrun.ReadOptions(post, WithUser(o, user))
  {
    match user
    case None =>
      assert UserArgs(user) + post == post;
    case Some(Named(name)) =>
      ReadOne(UserName, name, post, o);
    case Some(Numeric(uid, gid)) =>
      Sandrun.DecimalValue(uid);
      Sandrun.DecimalValue(gid);
      ReadIds(Sandrun.Decimal(uid), Sandrun.Decimal(gid), uid, gid, post, o);
  }

  lemma ReadIds(
    uidText: string, gidText: string, uid: Sandrun.u32, gid: Sandrun.u32,
    post: seq<string>, o: Sandrun.Options)
    requires o.uid.None? && o.gid.None?
    requires Sandrun.ParseUserId(uidText) == Some(uid) && Sandrun.ParseUserId(gidText) == Some(gid)
    ensures Sandrun.ReadOptions([FlagText(Uid), uidText] + [FlagText(Gid), gidText] + post, o)
            == Sandrun.ReadOptions(post, o.(uid := Some(uid), gid := Some(gid)))
  {
    hide Sandrun.ReadOptions, Sandrun.ParseUserId;
    var one, two := [FlagText(Uid), uidText], [FlagText(Gid), gidText] + post;
    assert [FlagText(Uid), uidText] + [FlagText(Gid), gidText] + post == one + two;
    ReadOne(Uid, uidText, two, o);
    ReadOne(Gid, gidText, post, o.(uid := Some(uid)));
  }

  lemma ReadDevice(device: Option<string>, post: seq<string>, o: Sandrun.Options)
    requires o.overlayDevice.None?
    ensures Sandrun.ReadOptions(DeviceArgs(device) + post, o)
            == Sandrun.ReadOptions(post, o.(overlayDevice := device))
  {
    if device.Some? {
      ReadOne(OverlayDevice, device.value, post, o);
    } else {
      assert DeviceArgs(device) + post == post;
    }
  }

  lemma ReadStandard(standard: bool, post: seq<string>, o: Sandrun.Options)
    requires !o.standardMounts
    ensures Sandrun.ReadOptions(StandardArgs(standard) + post, o)
            == Sandrun.ReadOptions(post, o.(standardMounts := standard))
  {
    var args := StandardArgs(standard) + post;
    if standard {
      SpellingIsRead(StandardMounts);
      assert args[0] == FlagText(StandardMounts) && args[1..] == post;
    } else {
      assert args == post;
    }
  }

  lemma ReadHead(s: Sidecar, post: seq<string>)
    ensures Sandrun.ReadOptions(Head(s) + post, Sandrun.NO_OPTIONS)
            == Sandrun.ReadOptions(post, Sandrun.NO_OPTIONS.(
                 rootfs := Some(s.rootfs), overlayDevice := s.overlayDevice,
                 overlayId := Some(s.process.name), standardMounts := s.standardMounts))
  {
    var o0 := Sandrun.NO_OPTIONS;
    var standard := StandardArgs(s.standardMounts) + post;
    var id := [FlagText(OverlayId), s.process.name] + standard;
    var device := DeviceArgs(s.overlayDevice) + id;
    assert Head(s) + post == [FlagText(Rootfs), s.rootfs] + device;
    ReadOne(Rootfs, s.rootfs, device, o0);
    var o1 := o0.(rootfs := Some(s.rootfs));
    ReadDevice(s.overlayDevice, id, o1);
    var o2 := o1.(overlayDevice := s.overlayDevice);
    ReadOne(OverlayId, s.process.name, standard, o2);
    ReadStandard(s.standardMounts, post, o2.(overlayId := Some(s.process.name)));
  }

  function WorkdirOf(p: Process): string {
    if p.workdir == "" then "/" else p.workdir
  }

  lemma ReadTail(p: Process, o: Sandrun.Options)
    requires o.userName.None? && o.uid.None? && o.gid.None? && o.workdir == "/"
    requires p.user.Some? ==> ValidUser(p.user.value)
    ensures Sandrun.ReadOptions(Tail(p), o)
            == Ok(Sandrun.Read(WithUser(o.(workdir := WorkdirOf(p)), p.user), p.command))
  {
    var command := ["--"] + p.command;
    var user := UserArgs(p.user) + command;
    if p.workdir != "" {
      ReadOne(Workdir, p.workdir, user, o);
    } else {
      assert Tail(p) == user;
    }
    ReadUser(p.user, command, o.(workdir := WorkdirOf(p)));
    assert command[0] == "--" && command[1..] == p.command;
  }

  function OptionsOf(s: Sidecar): Sandrun.Options {
    WithUser(
      Sandrun.Options(
        Some(s.rootfs), s.overlayDevice, Some(s.process.name), WorkdirOf(s.process),
        None, None, None, s.standardMounts, s.diskMounts, s.binds, []),
      s.process.user)
  }

  /** The option loop recovers every field, whatever the command contains. */
  lemma ReadBack(s: Sidecar)
    requires s.process.user.Some? ==> ValidUser(s.process.user.value)
    ensures Sandrun.ReadOptions(SidecarArgs(s), Sandrun.NO_OPTIONS)
            == Ok(Sandrun.Read(OptionsOf(s), s.process.command))
  {
    var tail := Tail(s.process);
    var binds := BindArgs(s.binds) + tail;
    var disks := DiskArgs(s.diskMounts) + binds;
    var o0 := Sandrun.NO_OPTIONS.(
      rootfs := Some(s.rootfs), overlayDevice := s.overlayDevice,
      overlayId := Some(s.process.name), standardMounts := s.standardMounts);
    ReadHead(s, disks);
    ReadDisks(s.diskMounts, binds, o0);
    assert [] + s.diskMounts == s.diskMounts && [] + s.binds == s.binds;
    var o1 := o0.(diskMounts := s.diskMounts);
    ReadBinds(s.binds, tail, o1);
    ReadTail(s.process, o1.(binds := s.binds));
  }

  // ------------------------------------------------------- whole round trip

  function StandardNames(i: nat): seq<string>
    requires i < 7
  {
    [["proc"], ["dev"], ["sys"], ["tmp"], ["run"], ["etc", "resolv.conf"], ["etc", "hosts"]][i]
  }

  lemma StandardIsText(i: nat)
    requires i < 7
    ensures AllPlain(StandardNames(i)) && Sandrun.STANDARD_TARGETS[i] == Text(StandardNames(i))
  {
    StandardNamesPlain(i);
    hide Text;
    if i < 5 {
      OneName(StandardNames(i)[0]);
    } else {
      TwoNames("etc", StandardNames(i)[1]);
    }
  }

  lemma StandardNamesPlain(i: nat)
    requires i < 7
    ensures AllPlain(StandardNames(i))
  {
  }

  lemma StandardComponents(i: nat)
    requires i < 7
    ensures Components(Sandrun.STANDARD_TARGETS[i]) == [RootDir] + Normals(StandardNames(i))
  {
    StandardIsText(i);
    TextComponents(StandardNames(i));
  }

  /** The standard targets do not overlap one another. */
  lemma StandardTargetsApart(i: nat, j: nat)
    requires j < i < 7
    ensures !ComponentsOverlap(Sandrun.STANDARD_TARGETS[i], Sandrun.STANDARD_TARGETS[j])
  {
    StandardComponents(i);
    StandardComponents(j);
    RootedPrefix(StandardNames(i), StandardNames(j));
    RootedPrefix(StandardNames(j), StandardNames(i));
    StandardNamesApart(i, j);
  }

  lemma StandardNamesApart(i: nat, j: nat)
    requires j < i < 7
    ensures !(StandardNames(i) <= StandardNames(j)) && !(StandardNames(j) <= StandardNames(i))
  {
    var a, b := StandardNames(i), StandardNames(j);
    assert a[0] != b[0] || (|a| == |b| == 2 && a[1] != b[1]);
  }

  lemma ApartEverywhere(s: Sidecar)
    requires ValidSidecar(s)
    ensures Sandrun.PairwiseApart(Sandrun.MountTargets(s.standardMounts, s.diskMounts, s.binds, []))
  {
    var all := AllTargets(s);
    assert Sandrun.MountTargets(s.standardMounts, s.diskMounts, s.binds, []) == all;
    forall i, j | 0 <= j < i < |all|
      ensures !ComponentsOverlap(all[i], all[j])
    {
      if i < |StandardTargets(s)| {
        assert all[i] == Sandrun.STANDARD_TARGETS[i] && all[j] == Sandrun.STANDARD_TARGETS[j];
        StandardTargetsApart(i, j);
      }
    }
  }

  lemma RootIsClean()
    ensures CleanAbsolute("/", true)
  {
    TextComponents([]);
    assert [RootDir] + Normals([]) == [RootDir];
  }

  /** Everything the checks behind the option loop look at. */
  ghost predicate PassesChecks(o: Sandrun.Options, command: seq<string>, user: Option<Sandrun.User>) {
    && command != [] && Sandrun.PathsAreClean(o, command)
    && o.rootfs.Some? && CleanAbsolute(o.rootfs.value, false)
    && (o.overlayDevice.Some? ==> CleanAbsolute(o.overlayDevice.value, false))
    && o.overlayId.Some? && 0 < |o.overlayId.value| <= 256
    && Sandrun.ClashFrom(Sandrun.MountTargets(o.standardMounts, o.diskMounts, o.binds, o.tmpfs), 0) == None
    && Sandrun.UserOf(o) == Ok(user)
  }

  lemma PathsOfSidecar(s: Sidecar)
    requires ValidSidecar(s) && ValidProcess(s.process)
    ensures Sandrun.PathsAreClean(OptionsOf(s), s.process.command)
    ensures CleanAbsolute(s.rootfs, false)
    ensures s.overlayDevice.Some? ==> CleanAbsolute(s.overlayDevice.value, false)
  {
    RootIsClean();
  }

  lemma NoClash(s: Sidecar)
    requires ValidSidecar(s)
    ensures Sandrun.ClashFrom(Sandrun.MountTargets(s.standardMounts, s.diskMounts, s.binds, []), 0) == None
  {
    ApartEverywhere(s);
    Sandrun.ClashFromMeaning(Sandrun.MountTargets(s.standardMounts, s.diskMounts, s.binds, []), 0);
  }

  lemma FieldsOfOptions(s: Sidecar)
    ensures var o := OptionsOf(s);
            && o.rootfs == Some(s.rootfs) && o.overlayDevice == s.overlayDevice
            && o.overlayId == Some(s.process.name) && o.workdir == WorkdirOf(s.process)
            && o.standardMounts == s.standardMounts && o.diskMounts == s.diskMounts
            && o.binds == s.binds && o.tmpfs == []
            && Sandrun.UserOf(o) == Ok(s.process.user)
  {
  }

  lemma SidecarPasses(s: Sidecar, o: Sandrun.Options, p: Process)
    requires o == OptionsOf(s) && p == s.process
    requires ValidSidecar(s) && ValidProcess(p)
    ensures PassesChecks(o, p.command, p.user)
  {
    FieldsOfOptions(s);
    assert Sandrun.PathsAreClean(o, p.command) && CleanAbsolute(s.rootfs, false)
           && (s.overlayDevice.Some? ==> CleanAbsolute(s.overlayDevice.value, false)) by {
      PathsOfSidecar(s);
    }
    NoClash(s);
  }

  /** The checks behind the option loop, on what the loop recovered. */
  lemma FinishAccepts(o: Sandrun.Options, command: seq<string>, user: Option<Sandrun.User>)
    requires PassesChecks(o, command, user)
    ensures Sandrun.Finish(o, command) ==
            if o.diskMounts == [] || o.overlayDevice.Some? then
              Ok(Sandrun.Config(o.rootfs.value, o.overlayDevice, o.overlayId, o.workdir, user,
                                o.standardMounts, o.diskMounts, o.binds, o.tmpfs, command))
            else Err(Sandrun.DiskMountRequiresOverlayDevice)
  {
  }

  lemma ParseAfterReading(args: seq<string>, o: Sandrun.Options, command: seq<string>)
    requires Sandrun.ReadOptions(args, Sandrun.NO_OPTIONS) == Ok(Sandrun.Read(o, command))
    ensures Sandrun.Parse(args) == Sandrun.Finish(o, command)
  {
  }

  /**
   Printer and parser undo each other: for every sidecar campd's validator
   accepts, sandrun parses the command line back into that sidecar, except that
   disk mounts without an overlay device pass campd and are refused by sandrun.
   */
  lemma ParseInvertsBuild(s: Sidecar)
    requires ValidSidecar(s) && ValidProcess(s.process)
    ensures Sandrun.Parse(SidecarArgs(s)) ==
            if s.diskMounts == [] || s.overlayDevice.Some? then Ok(ConfigOf(s))
            else Err(Sandrun.DiskMountRequiresOverlayDevice)
  {
    ReadBack(s);
    ParseAfterReading(SidecarArgs(s), OptionsOf(s), s.process.command);
    SidecarPasses(s, OptionsOf(s), s.process);
    FinishAccepts(OptionsOf(s), s.process.command, s.process.user);
  }

  // ----------------------------------- what campd accepts and sandrun refuses

  const DISK_ONLY := Sidecar(
    Process("a", Service, ["/a"], map[], "", None, None, None), "/a", None, false, ["/a"], [])
  const DISK_ONLY_SPEC := Spec(3, [DISK_ONLY], [])

  lemma OnePathValid()
    ensures ValidPath("/a", false)
  {
    hide Components;
    OneName("a");
    assert Text(["a"]) == "/a";
    assert AllPlain(["a"]);
    TextComponents(["a"]);
    var cs := Components("/a");
    assert cs == [RootDir] + Normals(["a"]);
    assert |cs| == 2;
    assert forall c :: c in cs ==> c.RootDir? || c.Normal?;
    assert "/a"[0] == '/' && "/a"[1] == 'a';
  }

  lemma DiskOnlyProcess()
    ensures ValidProcess(DISK_ONLY.process)
  {
    hide ValidPath;
    OnePathValid();
    assert "a"[0] == 'a';
  }

  lemma DiskOnlySidecar()
    ensures ValidSidecar(DISK_ONLY)
  {
    hide ValidPath;
    OnePathValid();
    assert AllTargets(DISK_ONLY) == ["/a"];
  }

  lemma DiskOnlyAccepted()
    ensures Accepts(DISK_ONLY_SPEC)
  {
    hide ValidProcess, ValidSidecar;
    DiskOnlyProcess();
    DiskOnlySidecar();
    var ps := Processes(DISK_ONLY_SPEC);
    assert ps == [DISK_ONLY.process];
    assert ps[..0] == [];
    assert Services(ps) == 1 && StartupBudget(ps) == 0;
  }

  /**
   The device condition is needed: campd accepts this declaration of one
   sidecar with a disk mount and no overlay device, and sandrun refuses the
   command line campd builds for it.
   */
  lemma DiskWithoutDevice()
    ensures Accepts(DISK_ONLY_SPEC) && DISK_ONLY in DISK_ONLY_SPEC.sidecars
    ensures Sandrun.Parse(SidecarArgs(DISK_ONLY)) == Err(Sandrun.DiskMountRequiresOverlayDevice)
  {
    hide ValidProcess, ValidSidecar, Accepts, Sandrun.Parse, SidecarArgs;
    DiskOnlyAccepted();
    DiskOnlyProcess();
    DiskOnlySidecar();
    ParseInvertsBuild(DISK_ONLY);
  }
}
