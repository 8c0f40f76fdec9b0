/** What holds of the supervisor over every run, whatever the environment answers. */
module Lifecycle {
  import opened Wrappers
  import opened Supervision
  import Progress
  import Campd
  import Probes

  // ----------------------------------------------------- state invariant

  /** True between any two updates. */
  ghost predicate Consistent(s: State) {
    && (forall e :: e in s.procs ==> (e.alive <==> e.exitStatus.None?))
    && (s.failure.Some? ==> !s.complete)
    && (s.ready ==> s.complete)
    && (!s.complete && s.failure.None? ==> forall e :: e in s.procs && e.kind.Service? ==> e.alive)
  }

  lemma BuriedConsistent(s: State, i: nat, status: Status, lingers: bool)
    requires Consistent(s) && i < |s.procs|
    ensures Consistent(Buried(s, i, status, lingers))
  {
    var after := Buried(s, i, status, lingers);
    forall e | e in after.procs
      ensures e.alive <==> e.exitStatus.None?
      ensures !after.complete && after.failure.None? && e.kind.Service? ==> e.alive
    {
      var j :| 0 <= j < |after.procs| && after.procs[j] == e;
      assert s.procs[j] in s.procs;
    }
  }

  lemma {:induction false} ReapAllConsistent(s: State, waits: seq<Wait>)
    requires Consistent(s)
    ensures Consistent(ReapAll(s, waits))
    decreases |waits|
  {
    if waits != [] {
      ReapAllConsistent(s, waits[..|waits| - 1]);
      var init, w := ReapAll(s, waits[..|waits| - 1]), waits[|waits| - 1];
      if w.Child? && FindLive(init.procs, w.pid) < |init.procs| {
        BuriedConsistent(init, FindLive(init.procs, w.pid), w.status, w.lingers);
      }
    }
  }

  lemma ObserveConsistent(s: State, o: Observation)
    requires Consistent(s)
    ensures Consistent(Observe(s, o))
  {
    var after := Observe(s, o);
    forall e | e in after.procs
      ensures e.alive <==> e.exitStatus.None?
      ensures !after.complete && after.failure.None? && e.kind.Service? ==> e.alive
    {
      var j :| 0 <= j < |after.procs| && after.procs[j] == e;
      assert s.procs[j] in s.procs;
    }
  }

  lemma {:induction false} ObserveAllConsistent(s: State, os: seq<Observation>)
    requires Consistent(s)
    ensures Consistent(ObserveAll(s, os))
    decreases |os|
  {
    if os != [] {
      ObserveAllConsistent(s, os[..|os| - 1]);
      ObserveConsistent(ObserveAll(s, os[..|os| - 1]), os[|os| - 1]);
    }
  }

  /** `drive` keeps the invariant, and unless `waitpid` failed it leaves readiness up to date. */
  lemma DriveConsistent(s: State, t: Tick)
    requires Consistent(s)
    ensures var (after, o) := Drive(s, t);
            Consistent(after) && (!o.Broken? ==> after.ready == ReadyNow(after))
  {
    ReapAllConsistent(s, t.waits);
    if !t.waitFault {
      ObserveAllConsistent(ReapAll(s, t.waits), t.queued);
      var half := FirstHalf(s, t);
      assert Consistent(half);
      ObserveAllConsistent(half, t.late);
      ReapAllConsistent(ObserveAll(half, t.late), t.lateWaits);
    }
  }

  // ---------------------------------------------------- machine invariant

  predicate Matches(p: Campd.Process, e: Entry) {
    e.name == p.name && e.kind == p.kind && e.probe.Some? == p.probe.Some?
  }

  /** The pids spawned so far, in order. */
  function SpawnsOf(log: seq<Event>): seq<nat> {
    if log == [] then []
    else SpawnsOf(log[..|log| - 1])
         + if log[|log| - 1].Spawned? then [log[|log| - 1].group] else []
  }

  function PidsOf(procs: seq<Entry>): (pids: seq<nat>)
    ensures |pids| == |procs|
  {
    seq(|procs|, i requires 0 <= i < |procs| => procs[i].pid)
  }

  /** The table holds a prefix of the plan, spawned in its order and nothing else. */
  ghost predicate InOrder(plan: seq<Campd.Process>, s: State) {
    && |s.procs| <= |plan|
    && (forall j :: 0 <= j < |s.procs| ==> Matches(plan[j], s.procs[j]))
    && SpawnsOf(s.log) == PidsOf(s.procs)
  }

  /** A job that exited with status 0 and left nothing in its process group. */
  predicate Succeeded(e: Entry) {
    !e.alive && e.exitStatus == Some(Exited(0)) && !e.residualGroup
  }

  ghost predicate JobsDone(procs: seq<Entry>, n: nat) {
    forall j :: 0 <= j < n && j < |procs| && procs[j].kind.RunToCompletion? ==> Succeeded(procs[j])
  }

  /** Initialization is still going on, and the first `n` of `spawned` processes passed their gates. */
  ghost predicate Initializing(s: State, spawned: nat, n: nat) {
    |s.procs| == spawned && JobsDone(s.procs, n) && s.failure.None? && !s.complete
  }

  ghost predicate Reachable(plan: seq<Campd.Process>, m: Machine) {
    && Consistent(m.s)
    && InOrder(plan, m.s)
    && (m.s.complete ==> |m.s.procs| == |plan| && JobsDone(m.s.procs, |plan|))
    && (!m.at.Crashed? && !m.at.Stopped? ==> m.s.ready == ReadyNow(m.s))
    && match m.at
       case Next(i) => Initializing(m.s, i, i)
       case Gate(j, _) => j < |plan| && Initializing(m.s, j + 1, j)
       case Supervising => m.s.complete || m.s.failure.Some?
       case Stopped(_, _) => !m.s.ready
       case Crashed => true
  }

  lemma {:induction false} SpawnsConcat(a: seq<Event>, b: seq<Event>)
    ensures SpawnsOf(a + b) == SpawnsOf(a) + SpawnsOf(b)
    decreases |b|
  {
    if b == [] {
      assert a + b == a;
    } else {
      var init := b[..|b| - 1];
      SpawnsConcat(a, init);
      assert (a + b)[..|a + b| - 1] == a + init;
    }
  }

  /** No update of `drive` spawns anything. */
  ghost predicate Quiet(before: State, after: State) {
    SpawnsOf(after.log) == SpawnsOf(before.log)
  }

  lemma ScheduleQuiet(s: State, group: nat, present: bool, now: nat)
    ensures Quiet(s, ScheduleCleanup(s, group, present, now))
  {
    var e := Terminated(group, now);
    assert (s.log + [e])[..|s.log|] == s.log;
  }

  lemma {:induction false} ReapAllQuiet(s: State, waits: seq<Wait>)
    ensures Quiet(s, ReapAll(s, waits))
    decreases |waits|
  {
    if waits != [] {
      var init, w := ReapAll(s, waits[..|waits| - 1]), waits[|waits| - 1];
      ReapAllQuiet(s, waits[..|waits| - 1]);
      if w.Child? && FindLive(init.procs, w.pid) < |init.procs| {
        ScheduleQuiet(Buried(init, FindLive(init.procs, w.pid), w.status, w.lingers), w.pid, w.stillLingers, w.now);
      }
    }
  }

  /** Probe results reach nothing but the table. */
  lemma {:induction false} ObserveAllTableOnly(s: State, os: seq<Observation>)
    ensures ObserveAll(s, os) == s.(procs := ObserveAll(s, os).procs)
    decreases |os|
  {
    if os != [] {
      ObserveAllTableOnly(s, os[..|os| - 1]);
    }
  }

  lemma {:induction false} NothingSpawned(log: seq<Event>)
    requires forall e :: e in log ==> !e.Spawned?
    ensures SpawnsOf(log) == []
    decreases |log|
  {
    if log != [] {
      NothingSpawned(log[..|log| - 1]);
    }
  }

  lemma {:induction false} SweepEventsSpawnNothing(cs: seq<Cleanup>, present: set<nat>, now: nat)
    ensures forall e :: e in SweepEvents(cs, present, now) ==> !e.Spawned?
    decreases |cs|
  {
    if cs != [] {
      SweepEventsSpawnNothing(cs[..|cs| - 1], present, now);
    }
  }

  lemma SweepQuiet(s: State, present: set<nat>, now: nat)
    ensures Quiet(s, Sweep(s, present, now))
  {
    SweepEventsSpawnNothing(s.cleanups, present, now);
    NothingSpawned(SweepEvents(s.cleanups, present, now));
    SpawnsConcat(s.log, SweepEvents(s.cleanups, present, now));
  }

  lemma DriveQuiet(s: State, t: Tick)
    ensures Quiet(s, Drive(s, t).0)
  {
    var a := ReapAll(s, t.waits);
    ReapAllQuiet(s, t.waits);
    if !t.waitFault {
      var b := ObserveAll(a, t.queued);
      ObserveAllTableOnly(a, t.queued);
      SweepQuiet(b, t.present, t.now);
      var half := FirstHalf(s, t);
      var c := ObserveAll(half, t.late);
      ObserveAllTableOnly(half, t.late);
      ReapAllQuiet(c, t.lateWaits);
      SweepQuiet(ReapAll(c, t.lateWaits), t.latePresent, t.lateNow);
    }
  }

  /** What `drive` leaves for the code after it. */
  lemma DriveReachable(plan: seq<Campd.Process>, s: State, t: Tick, done: nat)
    requires Consistent(s) && InOrder(plan, s)
    requires s.complete ==> |s.procs| == |plan| && JobsDone(s.procs, |plan|)
    requires JobsDone(s.procs, done)
    ensures var after := Drive(s, t).0;
            && Consistent(after) && InOrder(plan, after)
            && (after.complete ==> |after.procs| == |plan| && JobsDone(after.procs, |plan|))
            && JobsDone(after.procs, done)
            && |after.procs| == |s.procs|
            && after.complete == s.complete
            && (s.failure.Some? ==> after.failure == s.failure)
            && (!Drive(s, t).1.Broken? ==> after.ready == ReadyNow(after))
  {
    DriveConsistent(s, t);
    DriveQuiet(s, t);
    Progress.DriveAdvances(s, t);
    AgesKeepOrder(plan, s, Drive(s, t).0, done);
  }

  lemma AgesKeepOrder(plan: seq<Campd.Process>, s: State, after: State, done: nat)
    requires Progress.Advances(s, after) && Quiet(s, after)
    requires InOrder(plan, s) && JobsDone(s.procs, done)
    requires s.complete ==> JobsDone(s.procs, |plan|)
    ensures InOrder(plan, after) && JobsDone(after.procs, done)
    ensures s.complete ==> JobsDone(after.procs, |plan|)
  {
    forall j | 0 <= j < |s.procs|
      ensures Matches(plan[j], after.procs[j])
      ensures Succeeded(s.procs[j]) ==> Succeeded(after.procs[j])
    {
      assert Progress.Ages(s.procs[j], after.procs[j]);
    }
    assert PidsOf(after.procs) == PidsOf(s.procs);
    assert forall j :: 0 <= j < |s.procs| ==> after.procs[j].kind == s.procs[j].kind;
  }

  lemma HaltReachable(plan: seq<Campd.Process>, s: State, o: Outcome)
    requires Consistent(s) && InOrder(plan, s) && !o.Idle?
    requires s.complete ==> |s.procs| == |plan| && JobsDone(s.procs, |plan|)
    ensures Reachable(plan, Halt(s, o))
  {
    var after := Shutdown(s);
    assert PidsOf(after.procs) == PidsOf(s.procs);
    forall j | 0 <= j < |s.procs|
      ensures Matches(plan[j], after.procs[j])
      ensures Succeeded(s.procs[j]) ==> Succeeded(after.procs[j])
      ensures after.procs[j].alive <==> after.procs[j].exitStatus.None?
      ensures s.procs[j].kind.Service? && s.procs[j].alive ==> after.procs[j].alive
    {
      assert s.procs[j] in s.procs;
    }
  }

  lemma AbandonReachable(plan: seq<Campd.Process>, s: State, reason: Reason)
    requires Consistent(s) && InOrder(plan, s)
    ensures Reachable(plan, Abandon(s, reason))
  {
  }

  lemma SpawnReachable(plan: seq<Campd.Process>, s: State, i: nat, t: Tick)
    requires i < |plan| && Consistent(s) && InOrder(plan, s) && Initializing(s, i, i) && s.ready == ReadyNow(s)
    ensures Reachable(plan, AtNext(s, plan[i], i, t))
  {
    var after := Spawn(s, plan[i], t.spawned);
    if Starts(plan[i], t.spawned) {
      assert (s.log + [Spawned(t.spawned.pid)])[..|s.log|] == s.log;
      assert PidsOf(after.procs) == PidsOf(s.procs) + [t.spawned.pid];
      assert forall e :: e in after.procs ==> e in s.procs || e == NewEntry(plan[i], t.spawned.pid);
      assert Initializing(after, i + 1, i);
    } else {
      if t.spawned.Running? {
        assert (s.log + [Aborted(t.spawned.pid)])[..|s.log|] == s.log;
      }
      AbandonReachable(plan, after, SpawnFailed(plan[i].name));
    }
  }

  lemma ServiceGateReachable(plan: seq<Campd.Process>, s: State, j: nat, deadline: nat, t: Tick)
    requires j < |plan| && Consistent(s) && InOrder(plan, s) && |s.procs| == j + 1 && JobsDone(s.procs, j)
    requires !s.complete && s.ready == ReadyNow(s) && s.procs[j].kind.Service?
    ensures Reachable(plan, AtServiceGate(s, j, deadline, t))
  {
    if s.failure.Some? {
      AbandonReachable(plan, s, s.failure.value);
    } else {
      AbandonReachable(plan, s, ProbeTimedOut(s.procs[j].name));
    }
  }

  lemma ScheduleReachable(plan: seq<Campd.Process>, s: State, group: nat, present: bool, now: nat)
    requires Consistent(s) && InOrder(plan, s)
    ensures var s' := ScheduleCleanup(s, group, present, now);
            Consistent(s') && InOrder(plan, s')
  {
    ScheduleQuiet(s, group, present, now);
  }

  lemma JobGateReachable(plan: seq<Campd.Process>, s: State, j: nat, deadline: nat, t: Tick)
    requires j < |plan| && Consistent(s) && InOrder(plan, s) && |s.procs| == j + 1 && JobsDone(s.procs, j)
    requires !s.complete && s.ready == ReadyNow(s) && s.procs[j].kind.RunToCompletion?
    ensures Reachable(plan, AtJobGate(s, j, deadline, t))
  {
    var e := s.procs[j];
    assert e in s.procs;
    var scheduled := ScheduleCleanup(s, e.pid, t.gatePresent, t.gateTermAt);
    ScheduleReachable(plan, s, e.pid, t.gatePresent, t.gateTermAt);
    if s.failure.Some? {
      AbandonReachable(plan, if e.alive then scheduled else s, s.failure.value);
    } else if e.exitStatus.Some? {
      AbandonReachable(plan, s, JobFailed(e.name, e.exitStatus.value));
      AbandonReachable(plan, s, JobLeftDescendants(e.name));
    } else {
      AbandonReachable(plan, scheduled, JobTimedOut(e.name));
    }
  }

  lemma GateReachable(plan: seq<Campd.Process>, s: State, j: nat, deadline: nat, t: Tick)
    requires j < |plan| && Consistent(s) && InOrder(plan, s) && |s.procs| == j + 1 && JobsDone(s.procs, j)
    requires !s.complete && s.ready == ReadyNow(s)
    ensures Reachable(plan, AtGate(s, j, deadline, t))
  {
    if s.procs[j].kind.Service? {
      ServiceGateReachable(plan, s, j, deadline, t);
    } else {
      JobGateReachable(plan, s, j, deadline, t);
    }
  }

  lemma StepReachable(plan: seq<Campd.Process>, m: Machine, t: Tick)
    requires Reachable(plan, m)
    ensures Reachable(plan, Step(plan, m, t))
  {
    if !m.at.Stopped? && !m.at.Crashed? {
      var done := match m.at case Next(i) => i case Gate(j, _) => j case _ => 0;
      DriveReachable(plan, m.s, t, done);
      var (s, o) := Drive(m.s, t);
      FollowReachable(plan, s, o, m.at, t);
    }
  }

  lemma FollowReachable(plan: seq<Campd.Process>, s: State, o: Outcome, at: Control, t: Tick)
    requires !at.Stopped? && !at.Crashed?
    requires Consistent(s) && InOrder(plan, s)
    requires s.complete ==> |s.procs| == |plan| && JobsDone(s.procs, |plan|)
    requires !o.Broken? ==> s.ready == ReadyNow(s)
    requires match at
             case Next(i) => |s.procs| == i && JobsDone(s.procs, i) && !s.complete
             case Gate(j, _) => j < |plan| && |s.procs| == j + 1 && JobsDone(s.procs, j) && !s.complete
             case _ => s.complete || s.failure.Some?
    ensures Reachable(plan, Follow(plan, s, o, at, t))
  {
    if !o.Idle? {
      HaltReachable(plan, s, o);
    } else if at.Gate? {
      GateReachable(plan, s, at.j, at.deadline, t);
    } else if at.Next? && at.i < |plan| {
      if s.failure.Some? {
        AbandonReachable(plan, s, s.failure.value);
      } else {
        SpawnReachable(plan, s, at.i, t);
      }
    }
  }

  /** The invariant of every run. */
  lemma {:induction false} RunReachable(plan: seq<Campd.Process>, ticks: seq<Tick>)
    ensures Reachable(plan, Steps(plan, ticks))
    decreases |ticks|
  {
    if ticks == [] {
      assert SpawnsOf(START.s.log) == PidsOf(START.s.procs);
    } else {
      RunReachable(plan, ticks[..|ticks| - 1]);
      StepReachable(plan, Steps(plan, ticks[..|ticks| - 1]), ticks[|ticks| - 1]);
    }
  }

  // ------------------------------------------------------------ readiness

  predicate Serving(e: Entry) {
    e.alive && (e.probe.Some? ==> e.probe.value.health.Ready?)
  }

  /**
   Every declaration was spawned, in order and once; every service is serving
   and every job succeeded.
   */
  ghost predicate Up(plan: seq<Campd.Process>, s: State) {
    && |s.procs| == |plan|
    && SpawnsOf(s.log) == PidsOf(s.procs)
    && forall j :: 0 <= j < |plan| ==>
         && Matches(plan[j], s.procs[j])
         && if plan[j].kind.Service? then Serving(s.procs[j]) else Succeeded(s.procs[j])
  }

  /** In every run the readiness bit means exactly that everything declared is up. */
  lemma ReadinessMeaning(plan: seq<Campd.Process>, ticks: seq<Tick>)
    requires !Steps(plan, ticks).at.Crashed?
    ensures var m := Steps(plan, ticks);
            m.s.ready <==> m.at.Supervising? && m.s.failure.None? && Up(plan, m.s)
  {
    RunReachable(plan, ticks);
    var m := Steps(plan, ticks);
    if m.s.ready {
      forall j | 0 <= j < |plan|
        ensures if plan[j].kind.Service? then Serving(m.s.procs[j]) else Succeeded(m.s.procs[j])
      {
        assert m.s.procs[j] in m.s.procs && Matches(plan[j], m.s.procs[j]);
      }
    }
    if m.at.Supervising? && m.s.failure.None? && Up(plan, m.s) {
      forall e | e in m.s.procs && e.kind.Service?
        ensures Serving(e)
      {
        var j :| 0 <= j < |m.s.procs| && m.s.procs[j] == e;
        assert Matches(plan[j], m.s.procs[j]);
      }
    }
  }

  lemma {:induction false} SomeService(ps: seq<Campd.Process>) returns (j: nat)
    requires Campd.Services(ps) > 0
    ensures j < |ps| && ps[j].kind.Service?
    decreases |ps|
  {
    j := |ps| - 1;
    if !ps[j].kind.Service? {
      j := SomeService(ps[..|ps| - 1]);
    }
  }

  /** For a declaration campd accepts, readiness is never claimed without a service behind it. */
  lemma ReadyMeansServed(spec: Campd.Spec, ticks: seq<Tick>)
    requires Campd.Accepts(spec)
    ensures var m := Steps(Campd.Processes(spec), ticks);
            m.s.ready && !m.at.Crashed? ==> exists e :: e in m.s.procs && e.kind.Service? && Serving(e)
  {
    var plan := Campd.Processes(spec);
    var m := Steps(plan, ticks);
    if m.s.ready && !m.at.Crashed? {
      ReadinessMeaning(plan, ticks);
      var j := SomeService(plan);
      assert m.s.procs[j] in m.s.procs && Matches(plan[j], m.s.procs[j]);
    }
  }

  // ------------------------------------------------------- order of a run

  /** What later states of a run keep of earlier ones. */
  ghost predicate Precedes(before: State, after: State) {
    && |before.procs| <= |after.procs|
    && (forall j :: 0 <= j < |before.procs| ==> Outlives(before.procs[j], after.procs[j]))
    && (before.failure.Some? ==> after.failure == before.failure && |after.procs| == |before.procs|)
    && before.log <= after.log
  }

  /** An exit is final. */
  predicate Outlives(before: Entry, after: Entry) {
    && after.name == before.name && after.kind == before.kind && after.pid == before.pid
    && (!before.alive ==>
          !after.alive && after.exitStatus == before.exitStatus && after.residualGroup == before.residualGroup)
  }

  /** Leaving the table alone, keeping a failure and only adding to the log respects the order. */
  lemma SameTablePrecedes(s: State, after: State)
    requires after.procs == s.procs && s.log <= after.log && (s.failure.Some? ==> after.failure == s.failure)
    ensures Precedes(s, after)
  {
  }

  lemma FollowPrecedes(plan: seq<Campd.Process>, s: State, o: Outcome, at: Control, t: Tick)
    requires at.Next? || at.Gate? || at.Supervising?
    ensures Precedes(s, Follow(plan, s, o, at, t).s)
  {
    hide ReadyNow, IsPending, AtGate;
    var after := Follow(plan, s, o, at, t).s;
    if at.Gate? {
      Progress.GateLeavesTable(s, at.j, at.deadline, t);
    }
    if o.Idle? {
      hide Precedes;
      if at.Next? && at.i < |plan| {
        hide AtNext;
        NextPrecedes(s, plan[at.i], at.i, t);
      } else {
        SameTablePrecedes(s, after);
      }
    }
  }

  lemma NextPrecedes(s: State, p: Campd.Process, i: nat, t: Tick)
    ensures Precedes(s, AtNext(s, p, i, t).s)
  {
    hide ReadyNow, NewEntry, Gated;
  }

  lemma StepPrecedes(plan: seq<Campd.Process>, m: Machine, t: Tick)
    ensures Precedes(m.s, Step(plan, m, t).s)
  {
    if !m.at.Stopped? && !m.at.Crashed? {
      Progress.DriveAdvances(m.s, t);
      var (s, o) := Drive(m.s, t);
      FollowPrecedes(plan, s, o, m.at, t);
      assert forall j :: 0 <= j < |m.s.procs| ==> Progress.Ages(m.s.procs[j], s.procs[j]);
    }
  }

  lemma {:induction false} RunPrecedes(plan: seq<Campd.Process>, ticks: seq<Tick>, k: nat)
    requires k <= |ticks|
    ensures Precedes(Steps(plan, ticks[..k]).s, Steps(plan, ticks).s)
    decreases |ticks|
  {
    if k == |ticks| {
      assert ticks[..k] == ticks;
    } else {
      var init := ticks[..|ticks| - 1];
      assert init[..k] == ticks[..k];
      RunPrecedes(plan, init, k);
      StepPrecedes(plan, Steps(plan, init), ticks[|ticks| - 1]);
      PrecedesTransitive(Steps(plan, ticks[..k]).s, Steps(plan, init).s, Steps(plan, ticks).s);
    }
  }

  lemma PrecedesTransitive(a: State, b: State, c: State)
    requires Precedes(a, b) && Precedes(b, c)
    ensures Precedes(a, c)
  {
    forall j | 0 <= j < |a.procs|
      ensures Outlives(a.procs[j], c.procs[j])
    {
      assert Outlives(a.procs[j], b.procs[j]) && Outlives(b.procs[j], c.procs[j]);
    }
  }

  // ------------------------------------------------------ startup failure

  /**
   A startup failure is final: its first reason stays, no later declaration is
   spawned, initialization never completes and readiness is never claimed.
   */
  lemma FailureAbsorbs(plan: seq<Campd.Process>, ticks: seq<Tick>, k: nat)
    requires k <= |ticks| && Steps(plan, ticks[..k]).s.failure.Some?
    ensures var early, late := Steps(plan, ticks[..k]).s, Steps(plan, ticks).s;
            && late.failure == early.failure
            && SpawnsOf(late.log) == SpawnsOf(early.log)
            && !late.complete && !late.ready
  {
    RunPrecedes(plan, ticks, k);
    RunReachable(plan, ticks[..k]);
    RunReachable(plan, ticks);
    var early, late := Steps(plan, ticks[..k]).s, Steps(plan, ticks).s;
    forall j | 0 <= j < |early.procs|
      ensures PidsOf(late.procs)[j] == PidsOf(early.procs)[j]
    {
      assert Outlives(early.procs[j], late.procs[j]);
    }
    assert PidsOf(late.procs) == PidsOf(early.procs);
  }

  /**
   While declarations are still being started no failure is recorded, and
   every service started so far is alive; once they no longer are, either
   initialization completed or a failure explains why not.
   */
  lemma InitializationMeaning(plan: seq<Campd.Process>, ticks: seq<Tick>)
    ensures var m := Steps(plan, ticks);
            && (m.at.Next? || m.at.Gate? ==>
                  && m.s.failure.None? && !m.s.complete
                  && forall e :: e in m.s.procs && e.kind.Service? ==> e.alive)
            && (m.at.Supervising? ==> m.s.complete != m.s.failure.Some?)
  {
    RunReachable(plan, ticks);
  }

  /** A step taken with an exited service in the table and the bit off leaves it off, even if `waitpid` fails. */
  lemma StepStaysOff(plan: seq<Campd.Process>, m: Machine, t: Tick, j: nat)
    requires Reachable(plan, m) && !m.s.ready
    requires j < |m.s.procs| && m.s.procs[j].kind.Service? && !m.s.procs[j].alive
    ensures !Step(plan, m, t).s.ready
  {
    if !m.at.Stopped? && !m.at.Crashed? {
      StepReachable(plan, m, t);
      StepPrecedes(plan, m, t);
      var after := Step(plan, m, t);
      assert after.s.procs[j] in after.s.procs && !after.s.procs[j].alive by {
        assert Outlives(m.s.procs[j], after.s.procs[j]);
      }
      if Drive(m.s, t).1.Broken? {
        ReapAllKeepsBit(m.s, t.waits);
        var half := FirstHalf(m.s, t);
        ObserveAllTableOnly(half, t.late);
        ReapAllKeepsBit(ObserveAll(half, t.late), t.lateWaits);
        HalfAges(m.s, t, j);
        assert half.procs[j] in half.procs;
      }
    }
  }

  lemma {:induction false} ReapAllKeepsBit(s: State, waits: seq<Wait>)
    ensures ReapAll(s, waits).ready == s.ready
    decreases |waits|
  {
    if waits != [] {
      ReapAllKeepsBit(s, waits[..|waits| - 1]);
    }
  }

  lemma HalfAges(s: State, t: Tick, j: nat)
    requires j < |s.procs|
    ensures |FirstHalf(s, t).procs| == |s.procs| && Progress.Ages(s.procs[j], FirstHalf(s, t).procs[j])
  {
    Progress.ReapAllAdvances(s, t.waits);
    Progress.ObserveAllAdvances(ReapAll(s, t.waits), t.queued);
  }

  /**
   Once a service has exited, readiness is never claimed again, whatever its
   probe reports and even if `waitpid` fails later.
   */
  lemma {:induction false} ServiceExitIsFinal(plan: seq<Campd.Process>, ticks: seq<Tick>, k: nat, j: nat)
    requires k <= |ticks| && !Steps(plan, ticks[..k]).at.Crashed?
    requires var early := Steps(plan, ticks[..k]).s;
             j < |early.procs| && early.procs[j].kind.Service? && !early.procs[j].alive
    ensures !Steps(plan, ticks).s.ready
    decreases |ticks|
  {
    var early := Steps(plan, ticks[..k]);
    if k == |ticks| {
      assert ticks[..k] == ticks;
      RunReachable(plan, ticks);
      assert early.s.procs[j] in early.s.procs;
    } else {
      var init := ticks[..|ticks| - 1];
      assert init[..k] == ticks[..k];
      ServiceExitIsFinal(plan, init, k, j);
      RunReachable(plan, init);
      RunPrecedes(plan, init, k);
      var m := Steps(plan, init);
      assert Outlives(early.s.procs[j], m.s.procs[j]);
      StepStaysOff(plan, m, ticks[|ticks| - 1], j);
    }
  }

  lemma OnlyFaultsCrash(plan: seq<Campd.Process>, m: Machine, t: Tick)
    requires Reachable(plan, m) && !m.at.Crashed? && Step(plan, m, t).at.Crashed?
    ensures Step(plan, m, t).s == Drive(m.s, t).0
    ensures |Step(plan, m, t).s.procs| == |m.s.procs|
  {
    Progress.DriveAdvances(m.s, t);
  }

  /**
   The bit that `waitpid` failing leaves behind: the one from before that step
   if the first round of reaping failed, else what the state in the middle of
   the step called for.
   */
  lemma BitAtFault(plan: seq<Campd.Process>, ticks: seq<Tick>, t: Tick)
    requires !Steps(plan, ticks).at.Crashed? && Steps(plan, ticks + [t]).at.Crashed?
    ensures var before := Steps(plan, ticks).s;
            Steps(plan, ticks + [t]).s.ready == if t.waitFault then before.ready else ReadyNow(FirstHalf(before, t))
  {
    assert (ticks + [t])[..|ticks|] == ticks;
    RunReachable(plan, ticks);
    var before := Steps(plan, ticks);
    OnlyFaultsCrash(plan, before, t);
    FaultsCrash(plan, before, t);
    ReapAllKeepsBit(before.s, t.waits);
    var half := FirstHalf(before.s, t);
    ObserveAllTableOnly(half, t.late);
    ReapAllKeepsBit(ObserveAll(half, t.late), t.lateWaits);
  }

  lemma FaultsCrash(plan: seq<Campd.Process>, m: Machine, t: Tick)
    requires Reachable(plan, m) && !m.at.Crashed? && Step(plan, m, t).at.Crashed?
    ensures Drive(m.s, t).1.Broken?
  {
    Progress.DriveAdvances(m.s, t);
    hide ReadyNow, IsPending, ReapAll, ObserveAll, Sweep;
  }

  /**
   If the bit is still set when `waitpid` fails, only services that exited in
   that very step can be missing: everything was spawned, every job succeeded,
   nothing failed, and every service was alive when the step began.
   */
  lemma ReadyAtFault(plan: seq<Campd.Process>, ticks: seq<Tick>, t: Tick)
    requires !Steps(plan, ticks).at.Crashed? && Steps(plan, ticks + [t]).at.Crashed?
    requires Steps(plan, ticks + [t]).s.ready
    ensures var before, after := Steps(plan, ticks).s, Steps(plan, ticks + [t]).s;
            && after.complete && after.failure.None?
            && |before.procs| == |after.procs| == |plan| && SpawnsOf(after.log) == PidsOf(after.procs)
            && forall j :: 0 <= j < |plan| ==>
                 && Matches(plan[j], after.procs[j])
                 && if plan[j].kind.Service? then before.procs[j].alive else Succeeded(after.procs[j])
  {
    var all := ticks + [t];
    assert all[..|ticks|] == ticks;
    RunReachable(plan, ticks);
    RunReachable(plan, all);
    var before, after := Steps(plan, ticks), Steps(plan, all);
    OnlyFaultsCrash(plan, before, t);
    StepPrecedes(plan, before, t);
    hide Steps, Step, Precedes, Outlives;
    forall j | 0 <= j < |plan|
      ensures Matches(plan[j], after.s.procs[j])
      ensures if plan[j].kind.Service? then before.s.procs[j].alive else Succeeded(after.s.procs[j])
    {
      if plan[j].kind.Service? && !before.s.procs[j].alive {
        ServiceExitIsFinal(plan, all, |ticks|, j);
      }
    }
  }

  // ---------------------------------------------- what the answers decide

  /** The results of one probe, in the order they arrived. */
  function ResultsFor(os: seq<Observation>, j: nat): seq<bool> {
    if os == [] then []
    else ResultsFor(os[..|os| - 1], j) + if os[|os| - 1].index == j then [os[|os| - 1].success] else []
  }

  /** Queued results move each live probe by its own results in order, and touch nothing else. */
  lemma {:induction false} ObserveAllMeaning(s: State, os: seq<Observation>, j: nat)
    requires j < |s.procs|
    ensures var after := ObserveAll(s, os);
            && |after.procs| == |s.procs|
            && after.procs[j] ==
               if s.procs[j].alive && s.procs[j].probe.Some? then
                 s.procs[j].(probe := Some(Probes.After(s.procs[j].probe.value, ResultsFor(os, j))))
               else s.procs[j]
    decreases |os|
  {
    if os != [] {
      var init, last := os[..|os| - 1], os[|os| - 1];
      ObserveAllMeaning(s, init, j);
      var results := ResultsFor(init, j);
      assert (results + [last.success])[..|results|] == results;
      assert results + [] == results;
    }
  }

  /** The first answer about a pid, or the number of answers. */
  function FirstAbout(waits: seq<Wait>, pid: nat): (k: nat)
    ensures k <= |waits|
    ensures k < |waits| ==> waits[k].Child? && waits[k].pid == pid
    ensures forall i :: 0 <= i < k ==> !(waits[i].Child? && waits[i].pid == pid)
  {
    if waits == [] || (waits[0].Child? && waits[0].pid == pid) then 0 else 1 + FirstAbout(waits[1..], pid)
  }

  lemma FirstAboutSnoc(waits: seq<Wait>, w: Wait, pid: nat)
    ensures FirstAbout(waits + [w], pid) == if FirstAbout(waits, pid) < |waits| then FirstAbout(waits, pid)
                                            else if w.Child? && w.pid == pid then |waits| else |waits| + 1
  {
    var all := waits + [w];
    var k, n := FirstAbout(all, pid), FirstAbout(waits, pid);
    assert forall i :: 0 <= i < |waits| ==> all[i] == waits[i];
    assert all[|waits|] == w;
    assert !(k < n);
    assert n < |waits| ==> !(n < k);
  }

  /**
   Reaping changes a live entry exactly when `waitpid` reported its pid, and
   records the first status reported and whether the group was still there.
   */
  lemma {:induction false} ReapAllMeaning(s: State, waits: seq<Wait>, j: nat)
    requires j < |s.procs| && Progress.DistinctPids(s.procs)
    ensures var after, e, k := ReapAll(s, waits), s.procs[j], FirstAbout(waits, s.procs[j].pid);
            && |after.procs| == |s.procs| && Progress.DistinctPids(after.procs)
            && after.procs[j] == if e.alive && k < |waits| then Exit(e, waits[k].status, waits[k].lingers) else e
    decreases |waits|
  {
    if waits != [] {
      var init, w := waits[..|waits| - 1], waits[|waits| - 1];
      assert waits == init + [w];
      ReapAllMeaning(s, init, j);
      FirstAboutSnoc(init, w, s.procs[j].pid);
      ReapMeaning(ReapAll(s, init), w, j);
    }
  }

  lemma ReapMeaning(s: State, w: Wait, j: nat)
    requires j < |s.procs| && Progress.DistinctPids(s.procs)
    ensures var after, e := Reap(s, w), s.procs[j];
            && |after.procs| == |s.procs| && Progress.DistinctPids(after.procs)
            && after.procs[j] == if e.alive && w.Child? && w.pid == e.pid then Exit(e, w.status, w.lingers) else e
  {
    if w.Child? {
      var i := FindLive(s.procs, w.pid);
      if i < |s.procs| && i != j {
        assert s.procs[i].pid != s.procs[j].pid by { assert i < j || j < i; }
      }
    }
  }
}
