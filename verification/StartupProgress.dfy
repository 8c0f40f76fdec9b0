/** Exactly when initialization succeeds, and that every run gets that far. */
module StartupProgress {
  import opened Wrappers
  import opened Supervision
  import Campd
  import Isolation
  import Lifecycle
  import Probes
  import Progress
  import StartupBound

  // ------------------------------------------------- one call of `drive`

  /** The system answered, and no signal arrived. */
  predicate Calm(t: Tick) {
    !t.waitFault && !t.lateFault && t.signal.None? && t.lateSignal.None?
  }

  /** The first report about a pid, if there is one: the status, and whether its group lingers. */
  function Report(t: Tick, pid: nat): Option<(Status, bool)> {
    var k, n := Lifecycle.FirstAbout(t.waits, pid), Lifecycle.FirstAbout(t.lateWaits, pid);
    if k < |t.waits| then Some((t.waits[k].status, t.waits[k].lingers))
    else if n < |t.lateWaits| then Some((t.lateWaits[n].status, t.lateWaits[n].lingers))
    else None
  }

  /** The probe results of entry `j` that arrive in one call. */
  function Arriving(t: Tick, j: nat): seq<bool> {
    Lifecycle.ResultsFor(t.queued, j) + Lifecycle.ResultsFor(t.late, j)
  }

  lemma {:induction false} AfterConcat(g: Probes.Gauge, a: seq<bool>, b: seq<bool>)
    ensures Probes.After(g, a + b) == Probes.After(Probes.After(g, a), b)
    decreases |b|
  {
    if b == [] {
      assert a + b == a;
    } else {
      AfterConcat(g, a, b[..|b| - 1]);
      assert (a + b)[..|a + b| - 1] == a + b[..|b| - 1];
    }
  }

  /** What a call of `drive` makes of an entry: exited as first reported, or moved by its own results. */
  ghost predicate DrivenTo(e: Entry, after: Entry, report: Option<(Status, bool)>, results: seq<bool>) {
    if !e.alive then after == e
    else if report.None? then
      after == if e.probe.Some? then e.(probe := Some(Probes.After(e.probe.value, results))) else e
    else !after.alive && after.exitStatus == Some(report.value.0) && after.residualGroup == report.value.1
  }

  /** The results that reach an entry in one call: those that arrive before it is reaped. */
  function Reaching(t: Tick, pid: nat, j: nat): seq<bool> {
    if Lifecycle.FirstAbout(t.waits, pid) < |t.waits| then [] else Arriving(t, j)
  }

  lemma DriveMeaning(s: State, t: Tick, j: nat)
    requires Calm(t) && Progress.DistinctPids(s.procs) && j < |s.procs|
    ensures var after := Drive(s, t).0;
            && |after.procs| == |s.procs|
            && DrivenTo(s.procs[j], after.procs[j], Report(t, s.procs[j].pid), Arriving(t, j))
            && (s.procs[j].alive && s.procs[j].probe.Some? ==>
                  after.procs[j].probe
                  == Some(Probes.After(s.procs[j].probe.value, Reaching(t, s.procs[j].pid, j))))
  {
    var a := ReapAll(s, t.waits);
    Lifecycle.ReapAllMeaning(s, t.waits, j);
    Lifecycle.ObserveAllMeaning(a, t.queued, j);
    Progress.ObserveAllAdvances(a, t.queued);
    var half := FirstHalf(s, t);
    var c := ObserveAll(half, t.late);
    Lifecycle.ObserveAllMeaning(half, t.late, j);
    Progress.ObserveAllAdvances(half, t.late);
    assert Progress.DistinctPids(c.procs);
    Lifecycle.ReapAllMeaning(c, t.lateWaits, j);
    if s.procs[j].probe.Some? {
      AfterConcat(s.procs[j].probe.value, Lifecycle.ResultsFor(t.queued, j), Lifecycle.ResultsFor(t.late, j));
    }
  }

  // ------------------------------------------- failures of a call of `drive`

  /** A failure recorded on the way from one state to the other has a service that exited behind it. */
  ghost predicate Explained(before: State, after: State) {
    before.failure.None? && after.failure.Some? ==> exists e :: e in after.procs && e.kind.Service? && !e.alive
  }

  lemma ReapExplained(s: State, w: Wait)
    ensures Explained(s, Reap(s, w))
  {
    if w.Child? {
      var i := FindLive(s.procs, w.pid);
      if i < |s.procs| {
        assert Reap(s, w).procs[i] in Reap(s, w).procs;
      }
    }
  }

  lemma ExplainedTransitive(a: State, b: State, c: State)
    requires Explained(a, b) && Explained(b, c) && Progress.Advances(b, c)
    ensures Explained(a, c)
  {
    if a.failure.None? && b.failure.Some? {
      var e :| e in b.procs && e.kind.Service? && !e.alive;
      var j :| 0 <= j < |b.procs| && b.procs[j] == e;
      assert Progress.Ages(b.procs[j], c.procs[j]);
      assert c.procs[j] in c.procs;
    }
  }

  lemma {:induction false} ReapAllExplained(s: State, waits: seq<Wait>)
    ensures Explained(s, ReapAll(s, waits))
    decreases |waits|
  {
    if waits != [] {
      var init, w := ReapAll(s, waits[..|waits| - 1]), waits[|waits| - 1];
      ReapAllExplained(s, waits[..|waits| - 1]);
      ReapExplained(init, w);
      Progress.ReapAdvances(init, w);
      ExplainedTransitive(s, init, ReapAll(s, waits));
    }
  }

  lemma DriveExplained(s: State, t: Tick)
    requires Calm(t)
    ensures Explained(s, Drive(s, t).0)
  {
    hide Progress.Advances;
    var a := ReapAll(s, t.waits);
    ReapAllExplained(s, t.waits);
    var half := FirstHalf(s, t);
    Lifecycle.ObserveAllTableOnly(a, t.queued);
    Progress.ObserveAllAdvances(a, t.queued);
    Progress.SweepAdvances(ObserveAll(a, t.queued), t.present, t.now);
    Progress.AdvancesTransitive(a, ObserveAll(a, t.queued), half);
    ExplainedTransitive(s, a, half);
    var c := ObserveAll(half, t.late);
    Lifecycle.ObserveAllTableOnly(half, t.late);
    Progress.ObserveAllAdvances(half, t.late);
    ExplainedTransitive(s, half, c);
    var d := ReapAll(c, t.lateWaits);
    ReapAllExplained(c, t.lateWaits);
    Progress.ReapAllAdvances(c, t.lateWaits);
    ExplainedTransitive(s, c, d);
    Progress.SweepAdvances(d, t.latePresent, t.lateNow);
    ExplainedTransitive(s, d, SecondHalf(half, t));
  }

  /** No service is reported. */
  ghost predicate ServicesSilent(s: State, t: Tick) {
    forall j :: 0 <= j < |s.procs| && s.procs[j].kind.Service? ==> Report(t, s.procs[j].pid).None?
  }

  /** While initializing, a call of `drive` fails exactly if a service is reported. */
  lemma DriveFails(s: State, t: Tick)
    requires Calm(t) && Progress.DistinctPids(s.procs) && Lifecycle.Consistent(s)
    requires !s.complete && s.failure.None?
    ensures Drive(s, t).0.failure.None? <==> ServicesSilent(s, t)
  {
    var after := Drive(s, t).0;
    Progress.DriveAdvances(s, t);
    Lifecycle.DriveConsistent(s, t);
    DriveExplained(s, t);
    forall j | 0 <= j < |s.procs| && s.procs[j].kind.Service?
      ensures after.procs[j].alive <==> Report(t, s.procs[j].pid).None?
      ensures after.procs[j].kind.Service? && after.procs[j] in after.procs
    {
      assert s.procs[j] in s.procs;
      DriveMeaning(s, t, j);
      assert Progress.Ages(s.procs[j], after.procs[j]);
    }
    if after.failure.Some? {
      var e :| e in after.procs && e.kind.Service? && !e.alive;
      var j :| 0 <= j < |after.procs| && after.procs[j] == e;
      assert Progress.Ages(s.procs[j], after.procs[j]);
    }
  }

  // ------------------------------------------------ what a probe has heard

  /** All results of the probe of entry `j` in a run, in order of arrival. */
  function Heard(plan: seq<Campd.Process>, ticks: seq<Tick>, j: nat): seq<bool> {
    if ticks == [] then []
    else
      var init, t := ticks[..|ticks| - 1], ticks[|ticks| - 1];
      Heard(plan, init, j) + if j < |Steps(plan, init).s.procs| then Arriving(t, j) else []
  }

  /** The health that a history of results gives a declared probe. */
  function HealthAfter(probe: Campd.Probe, results: seq<bool>): Probes.Health {
    Probes.After(Probes.Fresh(probe.successThreshold, probe.failureThreshold), results).health
  }

  /** A live entry's gauge is what its declared thresholds make of the results. */
  predicate Gauges(p: Campd.Process, e: Entry, results: seq<bool>) {
    e.alive ==>
      e.probe == if p.probe.None? then None
                 else Some(Probes.After(
                             Probes.Fresh(p.probe.value.successThreshold, p.probe.value.failureThreshold), results))
  }

  ghost predicate AllGauge(plan: seq<Campd.Process>, s: State, ticks: seq<Tick>) {
    forall j :: 0 <= j < |s.procs| && j < |plan| ==> Gauges(plan[j], s.procs[j], Heard(plan, ticks, j))
  }

  predicate Running(at: Control) {
    at.Next? || at.Gate? || at.Supervising?
  }

  /** The code after a calm `drive` keeps running, and leaves the table alone or adds the process it started. */
  lemma FollowTable(plan: seq<Campd.Process>, s: State, at: Control, t: Tick)
    requires Running(at) && (at.Gate? ==> at.j < |s.procs|)
    ensures var after := Follow(plan, s, Idle, at, t);
            && Running(after.at)
            && (after.s.procs == s.procs
                || (at.Next? && at.i < |plan| && Starts(plan[at.i], t.spawned)
                    && after.s.procs == s.procs + [NewEntry(plan[at.i], t.spawned.pid)]))
  {
    hide ReadyNow, IsPending;
  }

  lemma {:induction false} NothingHeard(plan: seq<Campd.Process>, ticks: seq<Tick>, j: nat)
    requires j >= |Steps(plan, ticks).s.procs|
    ensures Heard(plan, ticks, j) == []
    decreases |ticks|
  {
    if ticks != [] {
      var init := ticks[..|ticks| - 1];
      Lifecycle.StepPrecedes(plan, Steps(plan, init), ticks[|ticks| - 1]);
      NothingHeard(plan, init, j);
    }
  }

  /**
   Over every calm run the gauge of each live probe is what its declared
   thresholds make of the results that arrived since it was started.
   */
  lemma {:induction false} RunGauges(plan: seq<Campd.Process>, ticks: seq<Tick>)
    requires Isolation.FreshRun(plan, ticks) && forall t :: t in ticks ==> Calm(t)
    ensures Running(Steps(plan, ticks).at)
    ensures AllGauge(plan, Steps(plan, ticks).s, ticks)
    decreases |ticks|
  {
    if ticks != [] {
      hide AllGauge, Step, Drive, Lifecycle.Reachable, Isolation.Isolated;
      var init, t := ticks[..|ticks| - 1], ticks[|ticks| - 1];
      assert init + [t] == ticks;
      RunGauges(plan, init);
      Isolation.RunIsolated(plan, init);
      Lifecycle.RunReachable(plan, init);
      StepGauges(plan, init, t);
    }
  }

  lemma StepGauges(plan: seq<Campd.Process>, ticks: seq<Tick>, t: Tick)
    requires Calm(t)
    requires var m := Steps(plan, ticks);
             && Running(m.at) && AllGauge(plan, m.s, ticks)
             && Lifecycle.Reachable(plan, m) && Isolation.Isolated(m.s)
    ensures var after := Steps(plan, ticks + [t]);
            Running(after.at) && AllGauge(plan, after.s, ticks + [t])
  {
    var m := Steps(plan, ticks);
    var s := Drive(m.s, t).0;
    assert (ticks + [t])[..|ticks|] == ticks;
    Progress.DriveAdvances(m.s, t);
    forall j | 0 <= j < |s.procs| && j < |plan|
      ensures Gauges(plan[j], s.procs[j], Heard(plan, ticks + [t], j))
    {
      DriveGauges(plan, ticks, t, j);
    }
    if m.at.Next? {
      NothingHeard(plan, ticks, m.at.i);
    }
    FollowGauges(plan, s, m.at, t, ticks + [t]);
  }

  lemma FollowGauges(plan: seq<Campd.Process>, s: State, at: Control, t: Tick, ticks: seq<Tick>)
    requires Running(at) && AllGauge(plan, s, ticks)
    requires at.Next? ==> |s.procs| == at.i && Heard(plan, ticks, at.i) == []
    requires at.Gate? ==> at.j < |s.procs|
    ensures var after := Follow(plan, s, Idle, at, t);
            Running(after.at) && AllGauge(plan, after.s, ticks)
  {
    hide Follow, Heard;
    FollowTable(plan, s, at, t);
  }

  lemma DriveGauges(plan: seq<Campd.Process>, ticks: seq<Tick>, t: Tick, j: nat)
    requires Calm(t) && Progress.DistinctPids(Steps(plan, ticks).s.procs)
    requires j < |Steps(plan, ticks).s.procs| && j < |plan|
    requires Gauges(plan[j], Steps(plan, ticks).s.procs[j], Heard(plan, ticks, j))
    ensures var after := Drive(Steps(plan, ticks).s, t).0;
            j < |after.procs| && Gauges(plan[j], after.procs[j], Heard(plan, ticks + [t], j))
  {
    var s := Steps(plan, ticks).s;
    DriveMeaning(s, t, j);
    assert (ticks + [t])[..|ticks|] == ticks;
    if plan[j].probe.Some? {
      var p := plan[j].probe.value;
      AfterConcat(Probes.Fresh(p.successThreshold, p.failureThreshold), Heard(plan, ticks, j), Arriving(t, j));
    }
  }

  // ------------------------------------------------ what startup asks for

  /**
   A gate is served: a probed service may wait until its deadline, by which
   the results so far must have made it ready; a job may run until its
   deadline, by which it must have been reported as a success.
   */
  predicate GateServed(p: Campd.Process, pid: nat, deadline: nat, t: Tick, heard: seq<bool>) {
    match p.kind
    case Service => t.gateNow < deadline || (p.probe.Some? && HealthAfter(p.probe.value, heard).Ready?)
    case RunToCompletion =>
      match Report(t, pid)
      case None => t.gateNow < deadline
      case Some((status, lingers)) => status == Exited(0) && !lingers
  }

  /** What the environment must do in one step: no service exits, a start works, a gate is served. */
  ghost predicate Favourable(plan: seq<Campd.Process>, ticks: seq<Tick>, t: Tick) {
    var m := Steps(plan, ticks);
    && ServicesSilent(m.s, t)
    && match m.at
       case Next(i) =>
         i < |plan| ==> t.spawned.Running? && (plan[i].probe.Some? ==> t.spawned.probeThread)
       case Gate(j, deadline) =>
         j < |plan| && j < |m.s.procs|
         && GateServed(plan[j], m.s.procs[j].pid, deadline, t, Heard(plan, ticks + [t], j))
       case _ => true
  }

  ghost predicate FavourableRun(plan: seq<Campd.Process>, ticks: seq<Tick>) {
    ticks == []
    || var init := ticks[..|ticks| - 1];
       && FavourableRun(plan, init)
       && (StartupBound.Initializing(Steps(plan, init).at) ==> Favourable(plan, init, ticks[|ticks| - 1]))
  }

  /** The process of a gate is alive between the calls of its loop. */
  lemma GateAlive(plan: seq<Campd.Process>, m: Machine, t: Tick)
    requires Lifecycle.Reachable(plan, m) && Step(plan, m, t).at.Gate?
    ensures var after := Step(plan, m, t);
            after.at.j < |after.s.procs| && after.s.procs[after.at.j].alive
  {
    Lifecycle.StepReachable(plan, m, t);
    var after := Step(plan, m, t);
    var j := after.at.j;
    assert after.s.procs[j] in after.s.procs;
    hide Lifecycle.InOrder, Lifecycle.JobsDone, Drive, ReadyNow, IsPending;
  }

  /** The code after `drive` at a gate. */
  lemma GateDecides(plan: seq<Campd.Process>, s: State, j: nat, deadline: nat, t: Tick, pid: nat, before: Entry,
                    heard: seq<bool>)
    requires j < |plan| && j < |s.procs| && s.failure.None?
    requires Lifecycle.Matches(plan[j], s.procs[j]) && Gauges(plan[j], s.procs[j], heard)
    requires before.alive && before.exitStatus.None? && DrivenTo(before, s.procs[j], Report(t, pid), Arriving(t, j))
    requires s.procs[j].kind.Service? ==> s.procs[j].alive
    ensures AtGate(s, j, deadline, t).s.failure.None? <==> GateServed(plan[j], pid, deadline, t, heard)
  {
    hide ReadyNow, IsPending, Report, Arriving, Probes.After;
  }

  /** One step of initialization fails exactly if the environment is not favourable. */
  lemma StepFavours(plan: seq<Campd.Process>, ticks: seq<Tick>, t: Tick)
    requires Calm(t)
    requires var m := Steps(plan, ticks);
             && StartupBound.Initializing(m.at) && AllGauge(plan, m.s, ticks)
             && Lifecycle.Reachable(plan, m) && Isolation.Isolated(m.s)
             && (m.at.Gate? ==> m.s.procs[m.at.j].alive)
    ensures Steps(plan, ticks + [t]).s.failure.None? <==> Favourable(plan, ticks, t)
  {
    var m := Steps(plan, ticks);
    var s := Drive(m.s, t).0;
    assert (ticks + [t])[..|ticks|] == ticks;
    DriveFails(m.s, t);
    match m.at {
      case Next(i) =>
      case Gate(j, deadline) =>
        if s.failure.None? {
          Lifecycle.DriveReachable(plan, m.s, t, j);
          DriveGauges(plan, ticks, t, j);
          DriveMeaning(m.s, t, j);
          assert m.s.procs[j] in m.s.procs && s.procs[j] in s.procs;
          GateDecides(plan, s, j, deadline, t, m.s.procs[j].pid, m.s.procs[j], Heard(plan, ticks + [t], j));
        }
    }
  }

  /** A run without faults and signals has no failure exactly if every step of initialization was favourable. */
  lemma {:induction false} RunFavours(plan: seq<Campd.Process>, ticks: seq<Tick>)
    requires Isolation.FreshRun(plan, ticks) && forall t :: t in ticks ==> Calm(t)
    ensures Steps(plan, ticks).s.failure.None? <==> FavourableRun(plan, ticks)
    decreases |ticks|
  {
    if ticks != [] {
      var init, t := ticks[..|ticks| - 1], ticks[|ticks| - 1];
      var m := Steps(plan, init);
      assert init + [t] == ticks;
      RunFavours(plan, init);
      RunGauges(plan, init);
      Isolation.RunIsolated(plan, init);
      Lifecycle.RunReachable(plan, init);
      if init != [] {
        Lifecycle.RunReachable(plan, init[..|init| - 1]);
        if m.at.Gate? {
          GateAlive(plan, Steps(plan, init[..|init| - 1]), init[|init| - 1]);
        }
      }
      Advance(plan, init, t);
    }
  }

  lemma Advance(plan: seq<Campd.Process>, ticks: seq<Tick>, t: Tick)
    requires Calm(t)
    requires var m := Steps(plan, ticks);
             && Running(m.at) && AllGauge(plan, m.s, ticks)
             && Lifecycle.Reachable(plan, m) && Isolation.Isolated(m.s)
             && (m.at.Gate? ==> m.s.procs[m.at.j].alive)
    ensures var m := Steps(plan, ticks);
            Steps(plan, ticks + [t]).s.failure.None? <==>
            m.s.failure.None? && (StartupBound.Initializing(m.at) ==> Favourable(plan, ticks, t))
  {
    var m := Steps(plan, ticks);
    assert (ticks + [t])[..|ticks|] == ticks;
    Lifecycle.StepPrecedes(plan, m, t);
    if StartupBound.Initializing(m.at) {
      StepFavours(plan, ticks, t);
    } else {
      Progress.DriveAdvances(m.s, t);
    }
  }

  /**
   Startup succeeds exactly when it can. Take an accepted declaration and a
   run without signals and faults in which time passes only in the timed
   receive. Once it is longer than the bound on the steps of initialization,
   campd is supervising, and initialization completed if and only if in every
   step no service had exited, every start had worked, every probed service
   had been made ready by its own results by its deadline, and every job had
   been reported by its deadline, with status 0 and no group left behind.
   */
  lemma StartupSucceedsIff(spec: Campd.Spec, start: nat, ticks: seq<Tick>)
    requires Campd.Accepts(spec) && forall t :: t in ticks ==> Calm(t)
    requires var plan := Campd.Processes(spec);
             && StartupBound.TimelyRun(plan, start, ticks) && Isolation.FreshRun(plan, ticks)
             && |ticks| > 500 + 2 * |plan| + StartupBound.GateSteps(plan, ticks, true)
    ensures var plan := Campd.Processes(spec);
            var m := Steps(plan, ticks);
            && m.at.Supervising?
            && (m.s.complete <==> FavourableRun(plan, ticks))
            && (m.s.failure.None? <==> FavourableRun(plan, ticks))
  {
    var plan := Campd.Processes(spec);
    var m := Steps(plan, ticks);
    if StartupBound.Initializing(m.at) {
      StartupBound.StepsBound(spec, start, ticks);
      assert false;
    }
    RunGauges(plan, ticks);
    RunFavours(plan, ticks);
    Lifecycle.InitializationMeaning(plan, ticks);
  }

  // ------------------------------------------------------------ readiness

  /** In no step was a service reported. */
  ghost predicate SilentRun(plan: seq<Campd.Process>, ticks: seq<Tick>) {
    ticks == []
    || var init := ticks[..|ticks| - 1];
       SilentRun(plan, init) && ServicesSilent(Steps(plan, init).s, ticks[|ticks| - 1])
  }

  ghost predicate ServicesAlive(procs: seq<Entry>) {
    forall j :: 0 <= j < |procs| && procs[j].kind.Service? ==> procs[j].alive
  }

  lemma DriveAlive(s: State, t: Tick)
    requires Calm(t) && Progress.DistinctPids(s.procs)
    ensures ServicesAlive(Drive(s, t).0.procs) <==> ServicesAlive(s.procs) && ServicesSilent(s, t)
  {
    hide Drive, Report;
    Progress.DriveAdvances(s, t);
    var after := Drive(s, t).0;
    forall j | 0 <= j < |s.procs|
      ensures after.procs[j].kind == s.procs[j].kind
      ensures after.procs[j].alive <==> s.procs[j].alive && Report(t, s.procs[j].pid).None?
    {
      assert Progress.Ages(s.procs[j], after.procs[j]);
      DriveMeaning(s, t, j);
    }
    if ServicesAlive(after.procs) {
      forall j | 0 <= j < |s.procs| && s.procs[j].kind.Service?
        ensures s.procs[j].alive && Report(t, s.procs[j].pid).None?
      {
        assert after.procs[j].alive;
      }
    }
  }

  /** Every service is still alive exactly if none was ever reported. */
  lemma {:induction false} RunSilent(plan: seq<Campd.Process>, ticks: seq<Tick>)
    requires Isolation.FreshRun(plan, ticks) && forall t :: t in ticks ==> Calm(t)
    ensures ServicesAlive(Steps(plan, ticks).s.procs) <==> SilentRun(plan, ticks)
    decreases |ticks|
  {
    if ticks != [] {
      var init, t := ticks[..|ticks| - 1], ticks[|ticks| - 1];
      var m := Steps(plan, init);
      RunSilent(plan, init);
      RunGauges(plan, init);
      Isolation.RunIsolated(plan, init);
      Lifecycle.RunReachable(plan, init);
      Progress.DriveAdvances(m.s, t);
      DriveAlive(m.s, t);
      FollowAlive(plan, Drive(m.s, t).0, m.at, t);
    }
  }

  lemma FollowAlive(plan: seq<Campd.Process>, s: State, at: Control, t: Tick)
    requires Running(at) && (at.Gate? ==> at.j < |s.procs|)
    ensures ServicesAlive(Follow(plan, s, Idle, at, t).s.procs) <==> ServicesAlive(s.procs)
  {
    hide Follow;
    FollowTable(plan, s, at, t);
    var after := Follow(plan, s, Idle, at, t).s.procs;
    if ServicesAlive(after) {
      assert forall j :: 0 <= j < |s.procs| ==> after[j] == s.procs[j];
    }
  }

  /** Each declared probe has been made ready by its results. */
  ghost predicate ProbesReady(plan: seq<Campd.Process>, ticks: seq<Tick>) {
    forall j :: 0 <= j < |plan| && plan[j].kind.Service? && plan[j].probe.Some? ==>
      HealthAfter(plan[j].probe.value, Heard(plan, ticks, j)).Ready?
  }

  /**
   Readiness from the answers of the environment alone. Past the bound on the
   steps of initialization the bit is set if and only if the environment was
   favourable while declarations were started, no service was ever reported,
   and each probe's results so far, read with its declared thresholds, say
   ready.
   */
  lemma ReadyIff(spec: Campd.Spec, start: nat, ticks: seq<Tick>)
    requires Campd.Accepts(spec) && forall t :: t in ticks ==> Calm(t)
    requires var plan := Campd.Processes(spec);
             && StartupBound.TimelyRun(plan, start, ticks) && Isolation.FreshRun(plan, ticks)
             && |ticks| > 500 + 2 * |plan| + StartupBound.GateSteps(plan, ticks, true)
    ensures var plan := Campd.Processes(spec);
            Steps(plan, ticks).s.ready <==>
            FavourableRun(plan, ticks) && SilentRun(plan, ticks) && ProbesReady(plan, ticks)
  {
    var plan := Campd.Processes(spec);
    StartupSucceedsIff(spec, start, ticks);
    RunSilent(plan, ticks);
    RunGauges(plan, ticks);
    Lifecycle.RunReachable(plan, ticks);
    Lifecycle.ReadinessMeaning(plan, ticks);
    hide Steps, Heard, FavourableRun, SilentRun, Campd.Accepts, StartupBound.TimelyRun, Isolation.FreshRun;
    SupervisingReady(plan, Steps(plan, ticks), ticks);
  }

  lemma SupervisingReady(plan: seq<Campd.Process>, m: Machine, ticks: seq<Tick>)
    requires Lifecycle.Reachable(plan, m) && m.at.Supervising? && AllGauge(plan, m.s, ticks)
    ensures m.s.ready <==> m.s.complete && ServicesAlive(m.s.procs) && ProbesReady(plan, ticks)
  {
    hide Heard;
    var procs := m.s.procs;
    if m.s.ready {
      forall j | 0 <= j < |plan| && plan[j].kind.Service?
        ensures procs[j].alive
        ensures plan[j].probe.Some? ==> HealthAfter(plan[j].probe.value, Heard(plan, ticks, j)).Ready?
      {
        assert procs[j] in procs && Lifecycle.Matches(plan[j], procs[j]);
        assert Gauges(plan[j], procs[j], Heard(plan, ticks, j));
      }
      assert forall j :: 0 <= j < |procs| ==> Lifecycle.Matches(plan[j], procs[j]);
    }
    if m.s.complete && ServicesAlive(procs) && ProbesReady(plan, ticks) {
      forall e | e in procs && e.kind.Service?
        ensures e.alive && (e.probe.Some? ==> e.probe.value.health.Ready?)
      {
        var j :| 0 <= j < |procs| && procs[j] == e;
        assert Lifecycle.Matches(plan[j], procs[j]) && Gauges(plan[j], procs[j], Heard(plan, ticks, j));
      }
    }
  }
}
