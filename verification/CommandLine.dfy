/**
 What a command line says to sandrun, read off its items in any order: the
 configuration it parses to, and exactly which command lines are accepted.
 */
module CommandLine {
  import opened Wrappers
  import opened Paths
  import opened Sandrun

  /** An option with its values. */
  datatype Item = Item(flag: Flag, values: seq<string>)
  {
    function Words(): seq<string> {
      [FlagText(flag)] + values
    }
  }

  /** The words of items, front to back. */
  function Forward(items: seq<Item>): seq<string> {
    if items == [] then [] else items[0].Words() + Forward(items[1..])
  }

  /** The options by their spelling. */
  lemma Spellings()
    ensures FlagText(Rootfs) == "--rootfs" && FlagText(OverlayDevice) == "--overlay-device"
    ensures FlagText(OverlayId) == "--overlay-id" && FlagText(Workdir) == "--workdir"
    ensures FlagText(UserName) == "--user" && FlagText(Uid) == "--uid" && FlagText(Gid) == "--gid"
    ensures FlagText(StandardMounts) == "--standard-mounts" && FlagText(DiskMount) == "--disk-mount"
    ensures FlagText(BindMount) == "--bind" && FlagText(ReadonlyBind) == "--ro-bind" && FlagText(Tmpfs) == "--tmpfs"
  {
  }

  // ------------------------------------------------------- what items say

  /** The values of the items with a flag, in order. */
  function ValuesOf(items: seq<Item>, flag: Flag): seq<string> {
    if items == [] then []
    else
      var last := items[|items| - 1];
      ValuesOf(items[..|items| - 1], flag) + if last.flag == flag && last.values != [] then [last.values[0]] else []
  }

  /** The last of some values. */
  function Latest(values: seq<string>): Option<string> {
    if values == [] then None else Some(values[|values| - 1])
  }

  function BindsOf(items: seq<Item>): seq<Bind> {
    if items == [] then []
    else
      var last := items[|items| - 1];
      BindsOf(items[..|items| - 1])
      + if (last.flag.BindMount? || last.flag.ReadonlyBind?) && |last.values| == 2 then
          [Bind(last.values[0], last.values[1], last.flag.ReadonlyBind?)]
        else []
  }

  predicate Has(items: seq<Item>, flag: Flag) {
    exists item :: item in items && item.flag == flag
  }

  /** The one id given for a flag. */
  function IdOf(items: seq<Item>, flag: Flag): Option<u32> {
    var values := ValuesOf(items, flag);
    if values == [] then None else ParseUserId(values[|values| - 1])
  }

  /** The options read so far say what the items say. */
  ghost predicate Says(items: seq<Item>, o: Options) {
    && o.rootfs == Latest(ValuesOf(items, Rootfs))
    && o.overlayDevice == Latest(ValuesOf(items, OverlayDevice))
    && o.overlayId == Latest(ValuesOf(items, OverlayId))
    && Some(o.workdir) == Latest(["/"] + ValuesOf(items, Workdir))
    && o.userName == Latest(ValuesOf(items, UserName))
    && o.uid == IdOf(items, Uid) && o.gid == IdOf(items, Gid)
    && (o.standardMounts <==> Has(items, StandardMounts))
    && o.diskMounts == ValuesOf(items, DiskMount)
    && o.binds == BindsOf(items)
    && o.tmpfs == ValuesOf(items, Tmpfs)
  }

  /** As many values as the option takes. */
  predicate WellFormed(item: Item) {
    |item.values| == match item.flag
                     case StandardMounts => 0
                     case BindMount => 2
                     case ReadonlyBind => 2
                     case _ => 1
  }

  /** A name at most once and valid; each id at most once and a number below the reserved one. */
  ghost predicate UsersInOrder(items: seq<Item>) {
    && |ValuesOf(items, UserName)| <= 1 && |ValuesOf(items, Uid)| <= 1 && |ValuesOf(items, Gid)| <= 1
    && (forall v :: v in ValuesOf(items, UserName) ==> ValidUserName(v))
    && (forall v :: v in ValuesOf(items, Uid) || v in ValuesOf(items, Gid) ==> ParseUserId(v).Some?)
  }

  ghost predicate Readable(items: seq<Item>) {
    (forall item :: item in items ==> WellFormed(item)) && UsersInOrder(items)
  }

  // ---------------------------------------------------------- one item more

  /** Whether one more item can be read after others. */
  predicate Fits(o: Options, item: Item) {
    && WellFormed(item)
    && match item.flag
       case UserName => o.userName.None? && ValidUserName(item.values[0])
       case Uid => o.uid.None? && ParseUserId(item.values[0]).Some?
       case Gid => o.gid.None? && ParseUserId(item.values[0]).Some?
       case _ => true
  }

  lemma ValuesSnoc(items: seq<Item>, item: Item, flag: Flag)
    ensures ValuesOf(items + [item], flag)
            == ValuesOf(items, flag) + if item.flag == flag && item.values != [] then [item.values[0]] else []
  {
    assert (items + [item])[..|items|] == items;
  }

  lemma HasSnoc(items: seq<Item>, item: Item, flag: Flag)
    ensures Has(items + [item], flag) <==> Has(items, flag) || item.flag == flag
  {
    assert item in items + [item];
  }

  /** The options after one more item. */
  function Added(o: Options, item: Item): Options
    requires WellFormed(item)
  {
    match item.flag
    case Rootfs => o.(rootfs := Some(item.values[0]))
    case OverlayDevice => o.(overlayDevice := Some(item.values[0]))
    case OverlayId => o.(overlayId := Some(item.values[0]))
    case Workdir => o.(workdir := item.values[0])
    case UserName => o.(userName := Some(item.values[0]))
    case Uid => o.(uid := ParseUserId(item.values[0]))
    case Gid => o.(gid := ParseUserId(item.values[0]))
    case StandardMounts => o.(standardMounts := true)
    case DiskMount => o.(diskMounts := o.diskMounts + [item.values[0]])
    case BindMount => o.(binds := o.binds + [Bind(item.values[0], item.values[1], false)])
    case ReadonlyBind => o.(binds := o.binds + [Bind(item.values[0], item.values[1], true)])
    case Tmpfs => o.(tmpfs := o.tmpfs + [item.values[0]])
  }

  /** Options that take one value. */
  predicate TakesOne(flag: Flag) {
    !flag.StandardMounts? && !flag.BindMount? && !flag.ReadonlyBind?
  }

  lemma LatestSnoc(items: seq<Item>, item: Item, flag: Flag)
    requires WellFormed(item) && TakesOne(flag)
    ensures var values := ValuesOf(items + [item], flag);
            && values == ValuesOf(items, flag) + (if item.flag == flag then [item.values[0]] else [])
            && Latest(values) == (if item.flag == flag then Some(item.values[0]) else Latest(ValuesOf(items, flag)))
            && IdOf(items + [item], flag)
               == if item.flag == flag then ParseUserId(item.values[0]) else IdOf(items, flag)
  {
    hide ParseUserId, FlagText;
    ValuesSnoc(items, item, flag);
  }

  lemma WorkdirSnoc(items: seq<Item>, item: Item)
    requires WellFormed(item)
    ensures Latest(["/"] + ValuesOf(items + [item], Workdir))
            == if item.flag.Workdir? then Some(item.values[0]) else Latest(["/"] + ValuesOf(items, Workdir))
  {
    hide FlagText;
    ValuesSnoc(items, item, Workdir);
    if item.flag.Workdir? {
      assert ["/"] + ValuesOf(items + [item], Workdir) == ["/"] + ValuesOf(items, Workdir) + [item.values[0]];
    }
  }

  lemma BindsSnoc(items: seq<Item>, item: Item)
    requires WellFormed(item)
    ensures BindsOf(items + [item])
            == BindsOf(items) + if item.flag.BindMount? then [Bind(item.values[0], item.values[1], false)]
                                else if item.flag.ReadonlyBind? then [Bind(item.values[0], item.values[1], true)]
                                else []
  {
    hide FlagText;
    assert (items + [item])[..|items|] == items;
  }

  lemma AddedSays(items: seq<Item>, o: Options, item: Item)
    requires Says(items, o) && WellFormed(item)
    ensures Says(items + [item], Added(o, item))
  {
    hide ParseUserId, FlagText, Has, ValuesOf, Latest, IdOf, BindsOf;
    LatestSnoc(items, item, Rootfs);
    LatestSnoc(items, item, OverlayDevice);
    LatestSnoc(items, item, OverlayId);
    LatestSnoc(items, item, UserName);
    LatestSnoc(items, item, Uid);
    LatestSnoc(items, item, Gid);
    LatestSnoc(items, item, DiskMount);
    LatestSnoc(items, item, Tmpfs);
    WorkdirSnoc(items, item);
    BindsSnoc(items, item);
    HasSnoc(items, item, StandardMounts);
  }

  /** One more value where at most one is allowed, and each must be good. */
  lemma OnceMore(before: seq<string>, after: seq<string>, more: seq<string>, good: string -> bool)
    requires after == before + more && |more| <= 1 && |before| <= 1 && forall v :: v in before ==> good(v)
    ensures |after| <= 1 && (forall v :: v in after ==> good(v))
            <==> more == [] || (before == [] && good(more[0]))
  {
    assert forall v :: v in after <==> v in before || v in more;
    if more != [] {
      assert more[0] in more;
    }
  }

  lemma FitsInOrder(items: seq<Item>, o: Options, item: Item)
    requires Says(items, o) && Readable(items)
    ensures Readable(items + [item]) <==> Fits(o, item)
  {
    hide ParseUserId, FlagText, ValidUserName, ValuesOf;
    var all := items + [item];
    assert forall i :: i in all <==> i in items || i == item;
    if WellFormed(item) {
      LatestSnoc(items, item, UserName);
      LatestSnoc(items, item, Uid);
      LatestSnoc(items, item, Gid);
      var known: string -> bool, number: string -> bool := v => ValidUserName(v), v => ParseUserId(v).Some?;
      OnceMore(ValuesOf(items, UserName), ValuesOf(all, UserName),
               if item.flag == UserName then [item.values[0]] else [], known);
      OnceMore(ValuesOf(items, Uid), ValuesOf(all, Uid), if item.flag == Uid then [item.values[0]] else [], number);
      OnceMore(ValuesOf(items, Gid), ValuesOf(all, Gid), if item.flag == Gid then [item.values[0]] else [], number);
    }
  }

  // -------------------------------------------------------- reading items

  /** An item in front is read as that item, if it fits. */
  lemma ReadsItem(item: Item, rest: seq<string>, o: Options)
    requires WellFormed(item)
    ensures ReadOption(item.Words() + rest, o)
            == if Fits(o, item) then Ok(Read(Added(o, item), rest)) else ReadOption(item.Words() + rest, o)
    ensures ReadOption(item.Words() + rest, o).Ok? <==> Fits(o, item)
    ensures (item.Words() + rest)[0] != "--"
  {
    hide FlagText, FlagFrom, ParseUserId, ValidUserName;
    SpellingIsRead(item.flag);
    var args := item.Words() + rest;
    assert args[0] == FlagText(item.flag);
    assert forall i :: 0 <= i < |item.values| ==> args[1 + i] == item.values[i];
    assert args[1 + |item.values|..] == rest;
  }

  /** Whatever option is read is an item in front. */
  lemma ReadIsItem(args: seq<string>, o: Options) returns (item: Item)
    requires args != [] && ReadOption(args, o).Ok?
    ensures WellFormed(item) && args == item.Words() + ReadOption(args, o).value.rest
  {
    hide FlagText, ParseUserId, ValidUserName;
    var flag := FlagOf(args[0]).value;
    FlagIsSpelled(args[0], 0);
    item := Item(flag, args[1..1 + Arity(flag)]);
    assert args == [args[0]] + args[1..1 + Arity(flag)] + args[1 + Arity(flag)..];
  }

  lemma {:induction false} FlagIsSpelled(s: string, k: nat)
    requires FlagFrom(s, k).Some?
    ensures FlagText(FlagFrom(s, k).value) == s
    decreases |FLAGS| - k
  {
    if FlagText(FLAGS[k]) != s {
      FlagIsSpelled(s, k + 1);
    }
  }

  /** Readable items in front of the separator are read to exactly what they say. */
  lemma {:induction false} ReadsItems(before: seq<Item>, o: Options, items: seq<Item>, command: seq<string>)
    returns (read: Options)
    requires Says(before, o) && Readable(before)
    requires forall item :: item in items ==> WellFormed(item)
    ensures Readable(before + items) ==>
              && ReadOptions(Forward(items) + ["--"] + command, o) == Ok(Read(read, command))
              && Says(before + items, read)
    ensures !Readable(before + items) ==> ReadOptions(Forward(items) + ["--"] + command, o).Err?
    decreases |items|
  {
    hide Says, Readable, ReadOption, FlagText;
    if items == [] {
      assert before + items == before;
      assert (Forward(items) + ["--"] + command)[1..] == command;
      read := o;
    } else {
      var item, rest := items[0], items[1..];
      var args := Forward(rest) + ["--"] + command;
      assert Forward(items) + ["--"] + command == item.Words() + args;
      assert before + items == before + [item] + rest;
      ReadsItem(item, args, o);
      FitsInOrder(before, o, item);
      read := o;
      if Fits(o, item) {
        AddedSays(before, o, item);
        read := ReadsItems(before + [item], Added(o, item), rest, command);
      } else {
        UnreadableStays(before + [item], rest);
      }
    }
  }

  lemma {:induction false} UnreadableStays(items: seq<Item>, more: seq<Item>)
    requires !Readable(items)
    ensures !Readable(items + more)
    decreases |more|
  {
    if more == [] {
      assert items + more == items;
    } else {
      var init, last := more[..|more| - 1], more[|more| - 1];
      UnreadableStays(items, init);
      assert items + more == items + init + [last];
      UnreadableSnoc(items + init, last);
    }
  }

  lemma UnreadableSnoc(items: seq<Item>, item: Item)
    requires !Readable(items)
    ensures !Readable(items + [item])
  {
    hide ParseUserId, ValidUserName, FlagText;
    ValuesSnoc(items, item, UserName);
    ValuesSnoc(items, item, Uid);
    ValuesSnoc(items, item, Gid);
    hide ValuesOf;
    assert forall i :: i in items ==> i in items + [item];
  }

  /** Whatever is read up to a separator is a list of items. */
  lemma {:induction false} ReadAreItems(args: seq<string>, o: Options) returns (items: seq<Item>)
    requires ReadOptions(args, o).Ok?
    ensures (forall item :: item in items ==> WellFormed(item))
    ensures args == Forward(items) + ["--"] + ReadOptions(args, o).value.rest
    decreases |args|
  {
    hide ReadOption, FlagText;
    if args[0] == "--" {
      items := [];
    } else {
      var item := ReadIsItem(args, o);
      var read := ReadOption(args, o).value;
      var rest := ReadAreItems(read.rest, read.options);
      items := [item] + rest;
      assert items[1..] == rest;
    }
  }

  // ---------------------------------------------------------- main theorem

  /** Whom the items ask for. */
  ghost predicate Asks(items: seq<Item>, user: Option<User>) {
    match user
    case None => ValuesOf(items, UserName) == [] && IdOf(items, Uid) == None && IdOf(items, Gid) == None
    case Some(Named(name)) =>
      Latest(ValuesOf(items, UserName)) == Some(name) && IdOf(items, Uid) == None && IdOf(items, Gid) == None
    case Some(Numeric(uid, gid)) =>
      ValuesOf(items, UserName) == [] && IdOf(items, Uid) == Some(uid) && IdOf(items, Gid) == Some(gid)
  }

  /** The configuration says what the items say. */
  ghost predicate Describes(items: seq<Item>, c: Config) {
    && Latest(ValuesOf(items, Rootfs)) == Some(c.rootfs)
    && Latest(ValuesOf(items, OverlayDevice)) == c.overlayDevice
    && Latest(ValuesOf(items, OverlayId)) == c.overlayId
    && Latest(["/"] + ValuesOf(items, Workdir)) == Some(c.workdir)
    && Asks(items, c.user)
    && (Has(items, StandardMounts) <==> c.standardMounts)
    && ValuesOf(items, DiskMount) == c.diskMounts
    && BindsOf(items) == c.binds
    && ValuesOf(items, Tmpfs) == c.tmpfs
  }

  /** The mount targets of a configuration, standard ones first. */
  function Targets(c: Config): seq<string> {
    (if c.standardMounts then ["/proc", "/dev", "/sys", "/tmp", "/run", "/etc/resolv.conf", "/etc/hosts"] else [])
    + c.diskMounts + BindTargets(c.binds) + c.tmpfs
  }

  /** What sandrun demands of a configuration. */
  ghost predicate Sound(c: Config) {
    && c.command != [] && CleanAbsolute(c.command[0], false)
    && CleanAbsolute(c.rootfs, false) && CleanAbsolute(c.workdir, true)
    && (c.overlayDevice.Some? ==> CleanAbsolute(c.overlayDevice.value, false) && c.overlayId.Some?)
    && (c.overlayId.Some? ==> 1 <= |c.overlayId.value| <= 256)
    && (c.diskMounts != [] ==> c.overlayDevice.Some?)
    && (forall t :: t in c.diskMounts || t in c.tmpfs ==> CleanAbsolute(t, false))
    && (forall b :: b in c.binds ==> CleanAbsolute(b.source, false) && CleanAbsolute(b.target, false))
    && PairwiseApart(Targets(c))
  }

  lemma FinishIff(items: seq<Item>, o: Options, command: seq<string>, c: Config)
    requires Says(items, o)
    ensures Finish(o, command) == Ok(c) <==> c.command == command && Describes(items, c) && Sound(c)
  {
    hide ValuesOf, IdOf, BindsOf, Has, CleanAbsolute, ClashFrom, PairwiseApart, FlagText;
    ClashIff(MountTargets(o.standardMounts, o.diskMounts, o.binds, o.tmpfs));
    LatestOf(ValuesOf(items, UserName));
  }

  lemma LatestOf(values: seq<string>)
    ensures Latest(values) == None <==> values == []
  {
  }

  lemma ClashIff(targets: seq<string>)
    ensures ClashFrom(targets, 0).None? <==> PairwiseApart(targets)
  {
    ClashFromMeaning(targets, 0);
  }

  /**
   Exactly which command lines sandrun accepts, and what they mean: a line
   parses to a configuration if and only if it is a list of options with their
   values, a separator and the command, names users in order, says of the
   root, the device, the identity, the directory, the user and the mounts what
   the configuration says, and the configuration is sound.
   */
  lemma ParseIff(args: seq<string>, c: Config)
    ensures Parse(args) == Ok(c) <==>
            exists items :: args == Forward(items) + ["--"] + c.command
                            && Readable(items) && Describes(items, c) && Sound(c)
  {
    hide ReadOptions, Finish, Says, Describes, Sound, UsersInOrder;
    NothingSaid();
    if Parse(args) == Ok(c) {
      var read := ReadOptions(args, NO_OPTIONS).value;
      var items := ReadAreItems(args, NO_OPTIONS);
      var o := ReadsItems([], NO_OPTIONS, items, read.rest);
      assert [] + items == items;
      assert o == read.options;
      FinishIff(items, o, read.rest, c);
    }
    forall items | args == Forward(items) + ["--"] + c.command && Readable(items) && Describes(items, c) && Sound(c)
      ensures Parse(args) == Ok(c)
    {
      var o := ReadsItems([], NO_OPTIONS, items, c.command);
      assert [] + items == items;
      FinishIff(items, o, c.command, c);
    }
  }

  lemma NothingSaid()
    ensures Says([], NO_OPTIONS) && Readable([])
  {
    assert ["/"] + ValuesOf([], Workdir) == ["/"];
  }
}
