/**
 A root on which the cgroup bind leaves `/sys`: its `/sys/fs` leads to `/data`.
 The planner accepts a tmpfs on `/data/cgroup` there, and hides the bind.
 */
module DivertedCgroup {
  import opened Wrappers
  import opened Paths
  import opened Resolver
  import opened BindTargets
  import opened MountPlan
  import opened MountViews
  import opened CgroupNesting
  import Argv
  import Sandrun

  // -------------------------------------------- resolving short paths

  lemma ChildResolves(fs: Tree, root: Path, n: string)
    requires IsPlain(n) && root + [n] in fs && !fs[root + [n]].Link?
    ensures Resolve(fs, root, Text([n])) == Ok(root + [n])
  {
    ResolveText(fs, root, [n]);
    ScanClear(fs, root, [n], 0);
    assert [n][..1] == [n];
  }

  lemma GrandchildResolves(fs: Tree, root: Path, a: string, b: string)
    requires IsPlain(a) && IsPlain(b)
    requires root + [a] in fs && !fs[root + [a]].Link? && root + [a, b] in fs && !fs[root + [a, b]].Link?
    ensures Resolve(fs, root, Text([a, b])) == Ok(root + [a, b])
    ensures Restart(fs, root, [a, b], 1) == Ok(root + [a, b])
  {
    ResolveText(fs, root, [a, b]);
    ScanClear(fs, root, [a, b], 0);
    assert [a, b][..1] == [a] && [a, b][..2] == [a, b];
  }

  /** A link at `a/b` that leads to the directory `d`. */
  ghost predicate Leads(fs: Tree, root: Path, a: string, b: string, d: string) {
    && AllPlain([a, b, d])
    && IsDir(fs, root + [a]) && root + [a, b] in fs && fs[root + [a, b]] == Link(Text([d])) && IsDir(fs, root + [d])
  }

  lemma LeadsScan(fs: Tree, root: Path, a: string, b: string, d: string, tail: seq<string>)
    requires Leads(fs, root, a, b, d)
    ensures Scan(fs, root, [a, b] + tail, 0) == Redirect(1, Text([d]))
    ensures Collapse([], Redirected([a, b] + tail, 1, Text([d]))) == Some([d] + tail)
  {
    hide Text, Components, Normals;
    var names := [a, b] + tail;
    assert root + names[..1] == root + [a] && root + names[..2] == root + [a, b];
    assert AllPlain([d]);
    TextComponents([d]);
    assert names[2..] == tail;
    assert Redirected(names, 1, Text([d])) == [RootDir] + Normals([d] + tail);
    assert ([RootDir] + Normals([d] + tail))[1..] == Normals([d] + tail);
    CollapseNormals([], [d] + tail);
    assert [] + ([d] + tail) == [d] + tail;
  }

  lemma LeadsResolves(fs: Tree, root: Path, a: string, b: string, d: string, g: string)
    requires Leads(fs, root, a, b, d) && IsPlain(g) && root + [d, g] in fs && !fs[root + [d, g]].Link?
    ensures Resolve(fs, root, Text([a, b])) == Ok(root + [d])
    ensures Resolve(fs, root, Text([a, b, g])) == Ok(root + [d, g])
  {
    assert [a, b] + [] == [a, b] && [a, b] + [g] == [a, b, g] && [d] + [] == [d] && [d] + [g] == [d, g];
    LeadsScan(fs, root, a, b, d, []);
    LeadsScan(fs, root, a, b, d, [g]);
    assert AllPlain([a, b]) && AllPlain([a, b, g]);
    ResolveText(fs, root, [a, b]);
    ResolveText(fs, root, [a, b, g]);
    ScanClear(fs, root, [d], 0);
    assert [d][..1] == [d];
    assert Restart(fs, root, [d], 1) == Ok(root + [d]);
    GrandchildResolves(fs, root, d, g);
  }

  // ------------------------------------------------------------- the root

  const MERGED: Path := ["merged"]
  const TOPS: seq<string> := ["proc", "dev", "sys", "tmp", "run", "etc", "data"]

  function ImageDirs(): set<Path> {
    {[], MERGED, MERGED + ["data", "cgroup"]} + (set n | n in TOPS :: MERGED + [n])
  }

  function Image(): Tree {
    (map p | p in ImageDirs() :: Dir)
    [MERGED + ["sys", "fs"] := Link(Text(["data"]))]
    [MERGED + ["app"] := File]
  }

  lemma ImageFacts()
    ensures WellFormed(Image()) && IsDir(Image(), MERGED)
    ensures forall n :: n in TOPS ==> IsDir(Image(), MERGED + [n])
    ensures IsDir(Image(), MERGED + ["data", "cgroup"])
    ensures MERGED + ["sys", "fs"] in Image() && Image()[MERGED + ["sys", "fs"]] == Link(Text(["data"]))
    ensures MERGED + ["app"] in Image() && Image()[MERGED + ["app"]] == File
  {
    var link, app, inner := MERGED + ["sys", "fs"], MERGED + ["app"], MERGED + ["data", "cgroup"];
    assert link[1] == "sys" && inner[1] == "data" && app[1] == "app";
    forall n | n in TOPS
      ensures IsDir(Image(), MERGED + [n])
    {
      assert (MERGED + [n])[1] == n && "app" !in TOPS;
      assert |MERGED + [n]| == 2 && |link| == 3;
    }
    assert "sys" in TOPS && "data" in TOPS;
    forall p {:trigger Parent(p)} | p in Image()
      ensures IsDir(Image(), Parent(p))
    {
      ImageParent(p);
    }
  }

  lemma ImageParent(p: Path)
    requires p in Image()
    ensures Parent(p) in {[], MERGED, MERGED + ["sys"], MERGED + ["data"]}
  {
    if p == MERGED + ["sys", "fs"] {
      assert Parent(p) == MERGED + ["sys"];
    } else if p == MERGED + ["data", "cgroup"] {
      assert Parent(p) == MERGED + ["data"];
    } else if |p| == 2 {
      assert Parent(p) == [p[0]];
    }
  }

  // ------------------------------------------------------------- the plan

  const INTRUDED := Sandrun.Config("/image", None, None, "/", None, true, [], [], ["/data/cgroup"], ["/app"])
  const HOST := Sources(
    map["/dev" := DirSource, "/sys" := DirSource, "/sys/fs/cgroup" := DirSource,
        "/etc/resolv.conf" := FileSource, "/etc/hosts" := FileSource],
    {MERGED + ["app"]})

  lemma CanonicalNames(names: seq<string>)
    requires AllPlain(names)
    ensures Names(Components(Text(names))) == names
  {
    TextComponents(names);
    assert ([RootDir] + Normals(names))[1..] == Normals(names);
    NamesOfNormals(names);
  }

  lemma EnsureDirectoryIdle(fs: Tree, root: Path, parent: seq<string>, p: Path)
    requires WellFormed(fs) && IsDir(fs, root) && AllPlain(parent)
    requires Restart(fs, root, parent, 0) == Ok(p) && IsDir(fs, p)
    ensures EnsureDirectory(fs, root, Text(parent)) == Made(fs, Ok(p))
  {
    hide Components, Text, Collapse;
    TextComponents(parent);
    assert ([RootDir] + Normals(parent))[1..] == Normals(parent);
    assert [] + parent == parent && root + [] == root;
    assert Restart(fs, root, [], 0) == Ok(root);
    EnsureFromIdle(fs, root, [], root, parent);
  }

  /** A target that is there already is left alone. */
  lemma EnsureIdle(fs: Tree, root: Path, parent: seq<string>, name: string, p: Path, kind: SourceKind)
    requires WellFormed(fs) && IsDir(fs, root) && AllPlain(parent) && IsPlain(name)
    requires Restart(fs, root, parent, 0) == Ok(p) && IsDir(fs, p) && p + [name] in fs
    ensures EnsureBind(fs, root, Text(parent + [name]), Some(kind)) == Ensured(fs, None)
  {
    hide Components, Text, Names, EnsureDirectory, Restart, WellFormed;
    CanonicalNames(parent + [name]);
    assert (parent + [name])[..|parent|] == parent;
    EnsureDirectoryIdle(fs, root, parent, p);
  }

  lemma TopText(i: nat)
    requires i < 5
    ensures IsPlain(TOPS[i]) && Sandrun.STANDARD_TARGETS[i] == Text([TOPS[i]])
  {
    Argv.StandardIsText(i);
    assert Argv.StandardNames(i) == [TOPS[i]];
    assert TOPS[i] in Argv.StandardNames(i);
  }

  lemma OtherTexts()
    ensures Text(["etc"]) == "/etc" && Text(["app"]) == "/app" && Text(["data", "cgroup"]) == "/data/cgroup"
    ensures IsPlain("etc") && IsPlain("app") && IsPlain("data") && IsPlain("cgroup") && IsPlain("sys") && IsPlain("fs")
  {
    hide Text;
    OneName("etc");
    OneName("app");
    TwoNames("data", "cgroup");
  }

  lemma TopResolves(i: nat)
    requires i < 5
    ensures Resolve(Image(), MERGED, Sandrun.STANDARD_TARGETS[i]) == Ok(MERGED + [TOPS[i]])
    ensures IsDir(Image(), MERGED + [TOPS[i]])
  {
    hide Image, Resolve, Text, IsPlain;
    ImageFacts();
    TopText(i);
    ChildResolves(Image(), MERGED, TOPS[i]);
  }

  lemma OthersResolve()
    ensures Resolve(Image(), MERGED, "/etc") == Ok(MERGED + ["etc"]) && IsDir(Image(), MERGED + ["etc"])
    ensures Resolve(Image(), MERGED, "/app") == Ok(MERGED + ["app"])
    ensures Resolve(Image(), MERGED, "/data/cgroup") == Ok(MERGED + ["data", "cgroup"])
    ensures Resolve(Image(), MERGED, "/") == Ok(MERGED)
  {
    hide Image, Resolve, Text, IsPlain;
    ImageFacts();
    OtherTexts();
    assert "etc" in TOPS && "data" in TOPS;
    ChildResolves(Image(), MERGED, "etc");
    ChildResolves(Image(), MERGED, "app");
    GrandchildResolves(Image(), MERGED, "data", "cgroup");
    RootResolves(Image(), MERGED);
  }

  lemma RootResolves(fs: Tree, root: Path)
    ensures Resolve(fs, root, "/") == Ok(root)
  {
    ResolveText(fs, root, []);
    assert root + [] == root;
  }

  lemma LeadsHolds()
    ensures Leads(Image(), MERGED, "sys", "fs", "data")
  {
    hide Image, Text, IsPlain;
    ImageFacts();
    OtherTexts();
    assert "sys" in TOPS && "data" in TOPS;
  }

  lemma CgroupLeads()
    ensures CGROUP.target == Text(["sys", "fs", "cgroup"])
    ensures Resolve(Image(), MERGED, CGROUP.target) == Ok(MERGED + ["data", "cgroup"])
    ensures Restart(Image(), MERGED, ["sys", "fs"], 0) == Ok(MERGED + ["data"])
  {
    hide Image, Resolve, Restart, Text, IsPlain, Leads;
    ImageFacts();
    OtherTexts();
    LeadsHolds();
    ThreeNames("sys", "fs", "cgroup");
    LeadsResolves(Image(), MERGED, "sys", "fs", "data", "cgroup");
    ResolveText(Image(), MERGED, ["sys", "fs"]);
  }

  lemma TargetedIdle()
    ensures Targeted(Image(), MERGED, INTRUDED, HOST) == Ensured(Image(), None)
  {
    hide Image, Resolve, Restart, Text, EnsureBind, IsPlain, Leads;
    ImageFacts();
    CgroupLeads();
    OtherTexts();
    assert "data" in TOPS;
    assert ["sys", "fs"] + ["cgroup"] == ["sys", "fs", "cgroup"];
    assert MERGED + ["data"] + ["cgroup"] == MERGED + ["data", "cgroup"];
    EnsureIdle(Image(), MERGED, ["sys", "fs"], "cgroup", MERGED + ["data"], DirSource);
  }

  // ------------------------------------------------------ the two checks

  lemma {:induction false} SingleAnswers<T>(
      rs: seq<Request>, answer: Request -> Result<seq<T>, PlanFault>, values: seq<T>)
    requires |rs| == |values| && forall i :: 0 <= i < |rs| ==> answer(rs[i]) == Ok([values[i]])
    ensures AllOf(rs, answer) == Ok(values)
    decreases |rs|
  {
    if rs != [] {
      var n := |rs| - 1;
      SingleAnswers(rs[..n], answer, values[..n]);
      assert rs == rs[..n] + [rs[n]] && values == values[..n] + [values[n]];
      SnocOf(rs[..n], rs[n], answer);
    }
  }

  lemma {:induction false} AllAnswered<T>(rs: seq<Request>, answer: Request -> Result<seq<T>, PlanFault>)
    requires forall i :: 0 <= i < |rs| ==> answer(rs[i]).Ok?
    ensures AllOf(rs, answer).Ok?
    decreases |rs|
  {
    if rs != [] {
      var n := |rs| - 1;
      AllAnswered(rs[..n], answer);
      assert rs == rs[..n] + [rs[n]];
      SnocOf(rs[..n], rs[n], answer);
    }
  }

  /** The standard requests on the five plain directories, in order. */
  function FirstFive(): (rs: seq<Request>)
    ensures |rs| == 5
  {
    [AskProc("/proc"), AskBind(Sandrun.Bind("/dev", "/dev", false), true), AskBind(SYS, false),
     AskTmpfs("/tmp", 0x3FF), AskTmpfs("/run", 0x1ED)]
  }

  lemma FirstFiveAnswers(i: nat)
    requires i < 5
    ensures FirstFive()[i].Target() == Sandrun.STANDARD_TARGETS[i] && !FirstFive()[i].AskDns?
    ensures Covered(Image(), MERGED, FirstFive()[i]) == Ok([[TOPS[i]]])
    ensures Operation(Image(), MERGED, FirstFive()[i], HOST).Ok?
  {
    hide Image, Resolve;
    TopResolves(i);
    var p := MERGED + [TOPS[i]];
    assert p[1..] == [TOPS[i]] && |MERGED| == 1;
  }

  const TMPFS: Request := AskTmpfs("/data/cgroup", 0x1ED)

  lemma DnsAnswers()
    ensures Covered(Image(), MERGED, AskDns) == Ok([["etc", "resolv.conf"], ["etc", "hosts"]])
    ensures Operation(Image(), MERGED, AskDns, HOST).Ok?
  {
    hide Image, Resolve;
    OthersResolve();
    assert (MERGED + ["etc"])[1..] == ["etc"];
    assert ["etc"] + ["resolv.conf"] == ["etc", "resolv.conf"] && ["etc"] + ["hosts"] == ["etc", "hosts"];
  }

  lemma IntruderAnswers()
    ensures Covered(Image(), MERGED, TMPFS) == Ok([["data", "cgroup"]])
    ensures Operation(Image(), MERGED, TMPFS, HOST) == Ok([Mount(MERGED + ["data", "cgroup"], Tmpfs(0x1ED))])
  {
    hide Image, Resolve, Text, Covered, Operation;
    ImageFacts();
    OtherTexts();
    OthersResolve();
    CgroupNesting.TmpfsAnswers(Image(), MERGED, "/data/cgroup", ["data", "cgroup"], 0x1ED, HOST);
  }

  lemma CgroupAnswers()
    ensures Operation(Image(), MERGED, AskBind(CGROUP, true), HOST)
            == Ok([Mount(MERGED + ["data", "cgroup"], BoundTo(CGROUP.source, false, true))])
  {
    hide Image, Resolve, Text;
    ImageFacts();
    CgroupLeads();
  }

  lemma StandardInOrder()
    ensures BEFORE_CGROUP + AFTER_CGROUP == FirstFive() + [AskDns]
    ensures BEFORE_CGROUP == FirstFive()[..3] && AFTER_CGROUP == FirstFive()[3..] + [AskDns]
  {
  }

  /** Where the accepted plan's compared mounts go. */
  function Targets(): (ts: seq<seq<string>>)
    ensures |ts| == 8
  {
    [["proc"], ["dev"], ["sys"], ["tmp"], ["run"], ["etc", "resolv.conf"], ["etc", "hosts"], ["data", "cgroup"]]
  }

  lemma TargetsDisjoint()
    ensures Disjoint(Targets())
  {
    forall i, j | 0 <= i < 8 && 0 <= j < 8 && i != j
      ensures !(Targets()[i] <= Targets()[j])
    {
      assert Targets()[i][0] != Targets()[j][0]
        || (|Targets()[i]| == |Targets()[j]| == 2 && Targets()[i][1] != Targets()[j][1]);
    }
  }

  lemma TargetsCovered(source: string -> string)
    ensures AllCovered(Image(), MERGED, Compared(INTRUDED, source)) == Ok(Targets())
  {
    hide Image, Covered, Operation, BEFORE_CGROUP, AFTER_CGROUP;
    var covers := CoveredIn(Image(), MERGED);
    var tops := Targets()[..5];
    forall i | 0 <= i < 5
      ensures covers(FirstFive()[i]) == Ok([tops[i]])
    {
      FirstFiveAnswers(i);
    }
    SingleAnswers(FirstFive(), covers, tops);
    DnsAnswers();
    IntruderAnswers();
    SnocOf(FirstFive(), AskDns, covers);
    SnocOf(FirstFive() + [AskDns], TMPFS, covers);
    StandardInOrder();
    assert Compared(INTRUDED, source) == FirstFive() + [AskDns] + [TMPFS];
    assert tops + [["etc", "resolv.conf"], ["etc", "hosts"]] + [["data", "cgroup"]] == Targets();
  }

  lemma OperationsPrepared()
    ensures var ops := Operations(Image(), MERGED, Requested(INTRUDED), HOST);
            && ops.Ok? && ops.value != []
            && ops.value[|ops.value| - 1] == Mount(MERGED + ["data", "cgroup"], Tmpfs(0x1ED))
  {
    hide Image, Covered, Operation, BEFORE_CGROUP, AFTER_CGROUP;
    var ops := OperationIn(Image(), MERGED, HOST);
    var ask := AskBind(CGROUP, true);
    var rs := FirstFive()[..3] + [ask] + (FirstFive()[3..] + [AskDns]);
    forall i | 0 <= i < |rs|
      ensures ops(rs[i]).Ok?
    {
      if i < 3 {
        FirstFiveAnswers(i);
      } else if i == 3 {
        CgroupAnswers();
      } else if i < 6 {
        FirstFiveAnswers(i - 1);
      } else {
        DnsAnswers();
      }
    }
    AllAnswered(rs, ops);
    IntruderAnswers();
    SnocOf(rs, TMPFS, ops);
    StandardInOrder();
    assert Requested(INTRUDED) == rs + [TMPFS];
  }

  lemma StartFits()
    ensures CheckStart(Image(), MERGED, INTRUDED, HOST.executables).None?
  {
    hide Image, Resolve;
    ImageFacts();
    OthersResolve();
  }

  /** The planner accepts it. */
  lemma IntrudedAccepted(source: string -> string)
    ensures var plan := Planned(Image(), MERGED, INTRUDED, HOST, source);
            && plan.fs == Image() && plan.mounts.Ok?
            && plan.mounts == Operations(Image(), MERGED, Requested(INTRUDED), HOST)
  {
    hide Image, Targeted, CheckStart, AllCovered, Operations, Compared, Requested;
    TargetedIdle();
    StartFits();
    TargetsCovered(source);
    TargetsDisjoint();
    CheckMeaning(Image(), MERGED, Compared(INTRUDED, source));
    OperationsPrepared();
    var ops := Operations(Image(), MERGED, Requested(INTRUDED), HOST);
    assert ops.value + [] == ops.value;
  }

  /**
   An input on which the nesting fails: the planner accepts this declaration,
   the cgroup bind is mounted on the image's `/data/cgroup`, outside `/sys`,
   and the tmpfs the declaration asks for there hides it from every path.
   */
  lemma CgroupHidden(source: string -> string, p: Path)
    ensures WellFormed(Image()) && IsDir(Image(), MERGED) && INTRUDED.standardMounts
    ensures var plan := Planned(Image(), MERGED, INTRUDED, HOST, source);
            && plan.mounts.Ok?
            && !PlanNested(plan, MERGED, INTRUDED, source)
            && var bind := Mount(MERGED + ["data", "cgroup"], BoundTo(CGROUP.source, false, true));
               bind in plan.mounts.value && View(plan.mounts.value, p) != Some(bind)
  {
    hide Image, Planned, Operations, Resolve, Compared, Solid, Apart, Extends;
    ImageFacts();
    IntrudedAccepted(source);
    OperationsPrepared();
    BindIsMounted(source);
    var ms := Planned(Image(), MERGED, INTRUDED, HOST, source).mounts.value;
    var bind := Mount(MERGED + ["data", "cgroup"], BoundTo(CGROUP.source, false, true));
    var over := ms[|ms| - 1];
    assert ms == ms[..|ms| - 1] + [over] + [];
    HiddenBehind(ms[..|ms| - 1], over, [], bind, p);
    NotNestedHere(source);
  }

  lemma BindIsMounted(source: string -> string)
    ensures var plan := Planned(Image(), MERGED, INTRUDED, HOST, source);
            plan.mounts.Ok?
            && Mount(MERGED + ["data", "cgroup"], BoundTo(CGROUP.source, false, true)) in plan.mounts.value
  {
    hide Image, Planned, Operation, Resolve, Compared, Solid, Apart, Extends, BEFORE_CGROUP, AFTER_CGROUP;
    hide AllCovered, GoTo, PartsOf;
    ImageFacts();
    IntrudedAccepted(source);
    CgroupAnswers();
    var parts := MountsNeverAlias(Image(), MERGED, INTRUDED, HOST, source);
    StandardPieces(Image(), MERGED, INTRUDED, HOST, source, parts);
    var ask := AskBind(CGROUP, true);
    assert [] + [ask] == [ask];
    EachSnoc([], ask, OperationIn(Image(), MERGED, HOST));
    assert Each([], OperationIn(Image(), MERGED, HOST)) == [];
    assert parts.cgroup[0] in parts.All();
  }

  lemma NotNestedHere(source: string -> string)
    ensures var plan := Planned(Image(), MERGED, INTRUDED, HOST, source);
            !PlanNested(plan, MERGED, INTRUDED, source)
  {
    hide Image, Planned, Resolve, Compared, AllCovered;
    IntrudedAccepted(source);
    TargetsCovered(source);
    CgroupLeads();
    var cgroup := ["data", "cgroup"];
    assert CgroupIn(Image(), MERGED) == cgroup by {
      assert (MERGED + cgroup)[1..] == cgroup;
    }
    assert cgroup == Targets()[7] && cgroup in Targets();
  }
}
