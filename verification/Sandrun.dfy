/**
 sandrun's command line: the index-driven option loop, the checks behind it and
 the configuration they produce. A `char` stands for one byte of an argument.
 */
module Sandrun {
  import opened Wrappers
  import opened Paths

  const U32_MAX: nat := 0xFFFF_FFFF

  type u32 = n: nat | n <= U32_MAX

  datatype Bind = Bind(source: string, target: string, readonly: bool)

  datatype User = Named(name: string) | Numeric(uid: u32, gid: u32)

  datatype Config = Config(
    rootfs: string,
    overlayDevice: Option<string>,
    overlayId: Option<string>,
    workdir: string,
    user: Option<User>,
    standardMounts: bool,
    diskMounts: seq<string>,
    binds: seq<Bind>,
    tmpfs: seq<string>,
    command: seq<string>)

  datatype ConfigError =
    | MissingOption | MissingValue | MissingSeparator | MissingCommand | UnknownOption
    | InvalidOverlayId | InvalidUserName | InvalidUserId | DuplicateUserOption
    | ConflictingUserOptions | IncompleteNumericUser | DiskMountRequiresOverlayDevice
    | InvalidPath | DuplicateMountTarget | OverlappingMountTargets

  const STANDARD_TARGETS: seq<string> :=
    ["/proc", "/dev", "/sys", "/tmp", "/run", "/etc/resolv.conf", "/etc/hosts"]

  // --------------------------------------------------------------- options

  datatype Flag =
    | Rootfs | OverlayDevice | OverlayId | Workdir | UserName | Uid | Gid
    | StandardMounts | DiskMount | BindMount | ReadonlyBind | Tmpfs

  function FlagText(f: Flag): string {
    match f
    case Rootfs => "--rootfs"
    case OverlayDevice => "--overlay-device"
    case OverlayId => "--overlay-id"
    case Workdir => "--workdir"
    case UserName => "--user"
    case Uid => "--uid"
    case Gid => "--gid"
    case StandardMounts => "--standard-mounts"
    case DiskMount => "--disk-mount"
    case BindMount => "--bind"
    case ReadonlyBind => "--ro-bind"
    case Tmpfs => "--tmpfs"
  }

  const FLAGS: seq<Flag> := [
    Rootfs, OverlayDevice, OverlayId, Workdir, UserName, Uid, Gid,
    StandardMounts, DiskMount, BindMount, ReadonlyBind, Tmpfs]

  function FlagFrom(s: string, k: nat): Option<Flag>
    decreases |FLAGS| - k
  {
    if k >= |FLAGS| then None
    else if FlagText(FLAGS[k]) == s then Some(FLAGS[k])
    else FlagFrom(s, k + 1)
  }

  /** Which option an argument names. */
  function FlagOf(s: string): Option<Flag> {
    FlagFrom(s, 0)
  }

  lemma {:induction false} FlagFromFinds(k: nat, at: nat)
    requires k <= at < |FLAGS|
    requires forall i :: k <= i < at ==> FlagText(FLAGS[i]) != FlagText(FLAGS[at])
    ensures FlagFrom(FlagText(FLAGS[at]), k) == Some(FLAGS[at])
    decreases at - k
  {
    if k < at {
      FlagFromFinds(k + 1, at);
    }
  }

  /** Spellings are distinct, by length or by the first letters behind `--`. */
  lemma SpellingsDiffer(f: Flag, g: Flag)
    requires f != g
    ensures FlagText(f) != FlagText(g)
  {
    assert |FlagText(f)| == |FlagText(g)| ==> FlagText(f)[2] != FlagText(g)[2];
  }

  lemma FlagsListed(f: Flag) returns (at: nat)
    ensures at < |FLAGS| && FLAGS[at] == f
    ensures forall i :: 0 <= i < at ==> FLAGS[i] != f
  {
    at := match f
      case Rootfs => 0 case OverlayDevice => 1 case OverlayId => 2 case Workdir => 3
      case UserName => 4 case Uid => 5 case Gid => 6 case StandardMounts => 7
      case DiskMount => 8 case BindMount => 9 case ReadonlyBind => 10 case Tmpfs => 11;
  }

  /** `name` is the spelling of `f`, and so not the separator. */
  predicate Spells(name: string, f: Flag) {
    FlagOf(name) == Some(f) && name != "--"
  }

  lemma SpellingIsRead(f: Flag)
    ensures Spells(FlagText(f), f)
  {
    var at := FlagsListed(f);
    forall i | 0 <= i < at
      ensures FlagText(FLAGS[i]) != FlagText(FLAGS[at])
    {
      SpellingsDiffer(FLAGS[i], f);
    }
    FlagFromFinds(0, at);
  }

  // -------------------------------------------------------- value checks

  predicate IsDigit(c: char) { '0' <= c <= '9' }

  predicate IsAlpha(c: char) { 'A' <= c <= 'Z' || 'a' <= c <= 'z' }

  predicate IsNameChar(c: char) {
    IsAlpha(c) || IsDigit(c) || c == '_' || c == '.' || c == '-'
  }

  predicate ValidUserName(s: string) {
    0 < |s| <= 64
    && (IsAlpha(s[0]) || s[0] == '_')
    && forall c :: c in s ==> IsNameChar(c)
  }

  predicate AllDigits(s: string) {
    forall c :: c in s ==> IsDigit(c)
  }

  function Value(digits: string): nat
    requires AllDigits(digits)
  {
    if digits == "" then 0
    else
      var last := digits[|digits| - 1];
      assert last in digits;
      Value(digits[..|digits| - 1]) * 10 + (last as int - '0' as int)
  }

  /** `parse_user_id`: a `u32` other than the reserved all-ones value. */
  function ParseUserId(s: string): Option<u32> {
    if s != "" && AllDigits(s) && Value(s) < U32_MAX then Some(Value(s)) else None
  }

  /** `u32::to_string`. */
  function Decimal(n: nat): string {
    var digit := ['0' + (n % 10) as char];
    if n < 10 then digit else Decimal(n / 10) + digit
  }

  lemma {:induction false} DecimalValue(n: nat)
    ensures Decimal(n) != "" && AllDigits(Decimal(n)) && Value(Decimal(n)) == n
  {
    if n >= 10 {
      DecimalValue(n / 10);
      var digit := ['0' + (n % 10) as char];
      var s := Decimal(n / 10) + digit;
      assert s[..|s| - 1] == Decimal(n / 10);
    }
  }

  // ------------------------------------------------------- mount targets

  /** `Path` equality compares components, not spelling. */
  predicate SamePath(a: string, b: string) {
    Components(a) == Components(b)
  }

  ghost predicate PairwiseApart(targets: seq<string>) {
    forall i, j :: 0 <= j < i < |targets| ==> !ComponentsOverlap(targets[i], targets[j])
  }

  function ClashWith(targets: seq<string>, i: nat, k: nat): Option<ConfigError>
    requires k <= i < |targets|
    decreases i - k
  {
    if k == i then None
    else if SamePath(targets[i], targets[k]) then Some(DuplicateMountTarget)
    else if ComponentsOverlap(targets[i], targets[k]) then Some(OverlappingMountTargets)
    else ClashWith(targets, i, k + 1)
  }

  function ClashFrom(targets: seq<string>, i: nat): Option<ConfigError>
    requires i <= |targets|
    decreases |targets| - i
  {
    if i == |targets| then None
    else if ClashWith(targets, i, 0).Some? then ClashWith(targets, i, 0)
    else ClashFrom(targets, i + 1)
  }

  /** `p` holds from `k` up to `i`. */
  predicate HoldsFrom(p: nat -> bool, k: nat, i: nat)
    decreases i - k
  {
    k >= i || (p(k) && HoldsFrom(p, k + 1, i))
  }

  lemma {:induction false} HoldsFromMeaning(p: nat -> bool, k: nat, i: nat)
    ensures HoldsFrom(p, k, i) <==> forall j :: k <= j < i ==> p(j)
    decreases i - k
  {
    if k < i {
      HoldsFromMeaning(p, k + 1, i);
    }
  }

  function Clear(targets: seq<string>, i: nat): nat -> bool
    requires i < |targets|
  {
    (j: nat) => j < |targets| && !ComponentsOverlap(targets[i], targets[j])
  }

  lemma {:induction false} ClashWithIsClear(targets: seq<string>, i: nat, k: nat)
    requires k <= i < |targets|
    ensures ClashWith(targets, i, k).None? <==> HoldsFrom(Clear(targets, i), k, i)
    decreases i - k
  {
    hide SamePath, ComponentsOverlap;
    if k < i {
      ClashWithIsClear(targets, i, k + 1);
      SameOverlaps(targets[i], targets[k]);
    }
  }

  lemma SameOverlaps(a: string, b: string)
    ensures SamePath(a, b) ==> ComponentsOverlap(a, b)
  {
  }

  lemma ClashWithMeaning(targets: seq<string>, i: nat, k: nat)
    requires k <= i < |targets|
    ensures ClashWith(targets, i, k).None?
            <==> forall j :: k <= j < i ==> !ComponentsOverlap(targets[i], targets[j])
  {
    ClashWithIsClear(targets, i, k);
    HoldsFromMeaning(Clear(targets, i), k, i);
    assert forall j: nat :: j < |targets| ==> Clear(targets, i)(j) == !ComponentsOverlap(targets[i], targets[j]);
  }

  lemma {:induction false} ClashFromMeaning(targets: seq<string>, i: nat)
    requires i <= |targets|
    ensures ClashFrom(targets, i).None?
            <==> forall a, b :: 0 <= b < a < |targets| && i <= a ==> !ComponentsOverlap(targets[a], targets[b])
    decreases |targets| - i
  {
    if i < |targets| {
      ClashWithMeaning(targets, i, 0);
      ClashFromMeaning(targets, i + 1);
    }
  }

  /** `validate_target_paths`: it passes exactly on pairwise disjoint subtrees. */
  method ValidateTargetPaths(targets: seq<string>) returns (r: Option<ConfigError>)
    ensures r == ClashFrom(targets, 0)
    ensures r.None? <==> PairwiseApart(targets)
  {
    ClashFromMeaning(targets, 0);
    var i := 0;
    while i < |targets|
      invariant 0 <= i <= |targets|
      invariant ClashFrom(targets, 0) == ClashFrom(targets, i)
    {
      var k := 0;
      while k < i
        invariant 0 <= k <= i
        invariant ClashWith(targets, i, 0) == ClashWith(targets, i, k)
      {
        if SamePath(targets[i], targets[k]) {
          return Some(DuplicateMountTarget);
        }
        if StartsWith(targets[i], targets[k]) || StartsWith(targets[k], targets[i]) {
          return Some(OverlappingMountTargets);
        }
        k := k + 1;
      }
      i := i + 1;
    }
    return None;
  }

  function BindTargets(binds: seq<Bind>): seq<string> {
    seq(|binds|, i requires 0 <= i < |binds| => binds[i].target)
  }

  function MountTargets(standard: bool, disks: seq<string>, binds: seq<Bind>, tmpfs: seq<string>): seq<string> {
    (if standard then STANDARD_TARGETS else []) + disks + BindTargets(binds) + tmpfs
  }

  // --------------------------------------------------- option loop, as a function

  datatype Options = Options(
    rootfs: Option<string>,
    overlayDevice: Option<string>,
    overlayId: Option<string>,
    workdir: string,
    userName: Option<string>,
    uid: Option<u32>,
    gid: Option<u32>,
    standardMounts: bool,
    diskMounts: seq<string>,
    binds: seq<Bind>,
    tmpfs: seq<string>)

  const NO_OPTIONS: Options := Options(None, None, None, "/", None, None, None, false, [], [], [])

  /** The options read so far and the arguments behind them. */
  datatype Read = Read(options: Options, rest: seq<string>)

  function ReadId(o: Options, v: string, isUid: bool): Result<Options, ConfigError> {
    var id := ParseUserId(v);
    if id.None? then Err(InvalidUserId)
    else if (if isUid then o.uid else o.gid).Some? then Err(DuplicateUserOption)
    else if isUid then Ok(o.(uid := id))
    else Ok(o.(gid := id))
  }

  /** An option with one value. */
  function Assign(flag: Flag, v: string, o: Options): Result<Options, ConfigError> {
    match flag
    case Rootfs => Ok(o.(rootfs := Some(v)))
    case OverlayDevice => Ok(o.(overlayDevice := Some(v)))
    case OverlayId => Ok(o.(overlayId := Some(v)))
    case Workdir => Ok(o.(workdir := v))
    case UserName =>
      if !ValidUserName(v) then Err(InvalidUserName)
      else if o.userName.Some? then Err(DuplicateUserOption)
      else Ok(o.(userName := Some(v)))
    case Uid => ReadId(o, v, true)
    case Gid => ReadId(o, v, false)
    case DiskMount => Ok(o.(diskMounts := o.diskMounts + [v]))
    case Tmpfs => Ok(o.(tmpfs := o.tmpfs + [v]))
    case StandardMounts => Ok(o.(standardMounts := true))
    case BindMount => Ok(o)
    case ReadonlyBind => Ok(o)
  }

  /** How many values an option takes. */
  function Arity(flag: Flag): nat {
    if flag.StandardMounts? then 0 else if flag.BindMount? || flag.ReadonlyBind? then 2 else 1
  }

  function ReadOption(args: seq<string>, o: Options): (r: Result<Read, ConfigError>)
    requires args != []
    ensures r.Ok? ==> |r.value.rest| < |args|
  {
    match FlagOf(args[0])
    case None => Err(UnknownOption)
    case Some(flag) =>
      if |args| <= Arity(flag) then Err(MissingValue)
      else if Arity(flag) == 2 then
        Ok(Read(o.(binds := o.binds + [Bind(args[1], args[2], flag.ReadonlyBind?)]), args[3..]))
      else
        var v := if Arity(flag) == 0 then "" else args[1];
        match Assign(flag, v, o)
        case Err(e) => Err(e)
        case Ok(updated) => Ok(Read(updated, args[1 + Arity(flag)..]))
  }

  /** Reads options up to the separator; the rest is then the command. */
  function ReadOptions(args: seq<string>, o: Options): Result<Read, ConfigError>
    decreases |args|
  {
    if args == [] then Err(MissingSeparator)
    else if args[0] == "--" then Ok(Read(o, args[1..]))
    else match ReadOption(args, o)
      case Err(e) => Err(e)
      case Ok(read) => ReadOptions(read.rest, read.options)
  }

  predicate PathsAreClean(o: Options, command: seq<string>)
    requires command != []
  {
    CleanAbsolute(o.workdir, true)
    && CleanAbsolute(command[0], false)
    && (forall t :: t in o.diskMounts ==> CleanAbsolute(t, false))
    && (forall b :: b in o.binds ==> CleanAbsolute(b.source, false) && CleanAbsolute(b.target, false))
    && (forall t :: t in o.tmpfs ==> CleanAbsolute(t, false))
  }

  function UserOf(o: Options): Result<Option<User>, ConfigError> {
    match o.userName
    case Some(name) => if o.uid.None? && o.gid.None? then Ok(Some(Named(name))) else Err(ConflictingUserOptions)
    case None =>
      if o.uid.Some? && o.gid.Some? then Ok(Some(Numeric(o.uid.value, o.gid.value)))
      else if o.uid.None? && o.gid.None? then Ok(None)
      else Err(IncompleteNumericUser)
  }

  /** The checks behind the option loop, in their order. */
  function Finish(o: Options, command: seq<string>): Result<Config, ConfigError> {
    if command == [] then Err(MissingCommand)
    else if o.rootfs.None? then Err(MissingOption)
    else if !CleanAbsolute(o.rootfs.value, false) then Err(InvalidPath)
    else if o.overlayDevice.Some? && !CleanAbsolute(o.overlayDevice.value, false) then Err(InvalidPath)
    else if o.overlayId.Some? && !(0 < |o.overlayId.value| <= 256) then Err(InvalidOverlayId)
    else if o.overlayDevice.Some? && o.overlayId.None? then Err(MissingOption)
    else if o.diskMounts != [] && o.overlayDevice.None? then Err(DiskMountRequiresOverlayDevice)
    else if !PathsAreClean(o, command) then Err(InvalidPath)
    else
      var clash := ClashFrom(MountTargets(o.standardMounts, o.diskMounts, o.binds, o.tmpfs), 0);
      if clash.Some? then Err(clash.value)
      else match UserOf(o)
        case Err(e) => Err(e)
        case Ok(user) =>
          Ok(Config(o.rootfs.value, o.overlayDevice, o.overlayId, o.workdir, user,
                    o.standardMounts, o.diskMounts, o.binds, o.tmpfs, command))
  }

  function Parse(args: seq<string>): Result<Config, ConfigError> {
    match ReadOptions(args, NO_OPTIONS)
    case Err(e) => Err(e)
    case Ok(read) => Finish(read.options, read.rest)
  }

  // ------------------------------------------------------- the algorithm

  /** `path_value`: the argument behind `i`, if there is one. */
  function PathValue(args: seq<string>, i: nat): Option<string> {
    if i + 1 < |args| then Some(args[i + 1]) else None
  }

  /** `parse_args`. */
  method ParseArgs(args: seq<string>) returns (r: Result<Config, ConfigError>)
    ensures r == Parse(args)
  {
    var o := NO_OPTIONS;
    var index := 0;
    var separator: Option<nat> := None;
    while index < |args|
      invariant 0 <= index <= |args|
      invariant separator.None?
      invariant ReadOptions(args, NO_OPTIONS) == ReadOptions(args[index..], o)
    {
      if args[index] == "--" {
        separator := Some(index);
        break;
      }
      var next;
      r, o, next := ParseOption(args, index, o);
      if r.Err? {
        return;
      }
      index := next;
    }
    if separator.None? {
      return Err(MissingSeparator);
    }
    assert args[index..][1..] == args[separator.value + 1..];
    r := FinishConfig(o, args[separator.value + 1..]);
  }

  /** One turn of the option loop; a failing turn reports its error in `r`. */
  method ParseOption(args: seq<string>, index: nat, before: Options)
      returns (r: Result<Config, ConfigError>, o: Options, next: nat)
    requires index < |args|
    ensures r.Err? ==> ReadOption(args[index..], before) == Err(r.error)
    ensures r.Ok? ==> index < next <= |args| && ReadOption(args[index..], before) == Ok(Read(o, args[next..]))
  {
    ghost var rest := args[index..];
    o, next := before, index + 1;
    r := Ok(Config("", None, None, "", None, false, [], [], [], []));
    var flag := FlagOf(args[index]);
    if flag.None? {
      return Err(UnknownOption), o, next;
    }
    if flag.value.StandardMounts? {
      assert rest[1..] == args[next..];
      o := o.(standardMounts := true);
      return;
    }
    var value := PathValue(args, index);
    if value.None? {
      return Err(MissingValue), o, next;
    }
    if flag.value.BindMount? || flag.value.ReadonlyBind? {
      var target := PathValue(args, index + 1);
      if target.None? {
        return Err(MissingValue), o, next;
      }
      next := index + 3;
      assert rest[3..] == args[next..];
      o := o.(binds := o.binds + [Bind(value.value, target.value, flag.value.ReadonlyBind?)]);
      return;
    }
    next := index + 2;
    assert rest[2..] == args[next..];
    match Assign(flag.value, value.value, o) {
      case Err(e) => r := Err(e);
      case Ok(updated) => o := updated;
    }
  }

  method FinishConfig(o: Options, command: seq<string>) returns (r: Result<Config, ConfigError>)
    ensures r == Finish(o, command)
  {
    if command == [] {
      return Err(MissingCommand);
    }
    if o.rootfs.None? {
      return Err(MissingOption);
    }
    if !CleanAbsolute(o.rootfs.value, false) {
      return Err(InvalidPath);
    }
    if o.overlayDevice.Some? && !CleanAbsolute(o.overlayDevice.value, false) {
      return Err(InvalidPath);
    }
    if o.overlayId.Some? && !(0 < |o.overlayId.value| <= 256) {
      return Err(InvalidOverlayId);
    }
    if o.overlayDevice.Some? && o.overlayId.None? {
      return Err(MissingOption);
    }
    if o.diskMounts != [] && o.overlayDevice.None? {
      return Err(DiskMountRequiresOverlayDevice);
    }
    if !PathsAreClean(o, command) {
      return Err(InvalidPath);
    }
    var clash := ValidateTargetPaths(MountTargets(o.standardMounts, o.diskMounts, o.binds, o.tmpfs));
    if clash.Some? {
      return Err(clash.value);
    }
    var user := UserOf(o);
    if user.Err? {
      return Err(user.error);
    }
    return Ok(Config(o.rootfs.value, o.overlayDevice, o.overlayId, o.workdir, user.value,
                     o.standardMounts, o.diskMounts, o.binds, o.tmpfs, command));
  }
}
