/** Whom the supervisor signals while it runs: never a live service. */
module Isolation {
  import opened Supervision
  import Campd
  import Lifecycle
  import Progress

  predicate IsSignal(e: Event) {
    e.Terminated? || e.Killed?
  }

  /** The group belongs to a tracked process that has exited or is a job. */
  ghost predicate FairGame(procs: seq<Entry>, group: nat) {
    exists e :: e in procs && e.pid == group && !(e.kind.Service? && e.alive)
  }

  ghost predicate Isolated(s: State) {
    && Progress.DistinctPids(s.procs)
    && (forall e :: e in s.log && IsSignal(e) ==> FairGame(s.procs, e.group))
    && (forall c :: c in s.cleanups ==> FairGame(s.procs, c.group))
  }

  /** With distinct pids a fair target is not the group of any live service. */
  lemma FairMeansNoLiveService(procs: seq<Entry>, group: nat)
    requires Progress.DistinctPids(procs) && FairGame(procs, group)
    ensures forall e :: e in procs && e.kind.Service? && e.alive ==> e.pid != group
  {
    var f :| f in procs && f.pid == group && !(f.kind.Service? && f.alive);
    forall e | e in procs && e.kind.Service? && e.alive
      ensures e.pid != group
    {
      var i :| 0 <= i < |procs| && procs[i] == e;
      var j :| 0 <= j < |procs| && procs[j] == f;
      assert i < j || j < i;
    }
  }

  /** Entries keep pid and kind, and exits are final. */
  ghost predicate Aged(before: seq<Entry>, after: seq<Entry>) {
    |before| <= |after|
    && forall j :: 0 <= j < |before| ==>
         after[j].pid == before[j].pid && after[j].kind == before[j].kind && (after[j].alive ==> before[j].alive)
  }

  lemma FairStays(before: seq<Entry>, after: seq<Entry>, group: nat)
    requires Aged(before, after) && FairGame(before, group)
    ensures FairGame(after, group)
  {
    var e :| e in before && e.pid == group && !(e.kind.Service? && e.alive);
    var j :| 0 <= j < |before| && before[j] == e;
    assert after[j] in after;
  }

  /** A change of the table alone keeps isolation. */
  lemma TableKeeps(s: State, after: State)
    requires Isolated(s) && Aged(s.procs, after.procs) && Progress.DistinctPids(after.procs)
    requires after.log == s.log && after.cleanups == s.cleanups
    ensures Isolated(after)
  {
    forall group | FairGame(s.procs, group)
      ensures FairGame(after.procs, group)
    {
      FairStays(s.procs, after.procs, group);
    }
  }

  lemma ScheduleKeeps(s: State, group: nat, present: bool, now: nat)
    requires Isolated(s) && FairGame(s.procs, group)
    ensures Isolated(ScheduleCleanup(s, group, present, now))
  {
  }

  lemma ReapKeeps(s: State, w: Wait)
    requires Isolated(s)
    ensures Isolated(Reap(s, w))
  {
    if w.Child? {
      var i := FindLive(s.procs, w.pid);
      if i < |s.procs| {
        var buried := Buried(s, i, w.status, w.lingers);
        TableKeeps(s, buried);
        assert buried.procs[i] in buried.procs;
        if w.lingers {
          ScheduleKeeps(buried, w.pid, w.stillLingers, w.now);
        }
      }
    }
  }

  lemma {:induction false} ReapAllKeeps(s: State, waits: seq<Wait>)
    requires Isolated(s)
    ensures Isolated(ReapAll(s, waits))
    decreases |waits|
  {
    if waits != [] {
      ReapAllKeeps(s, waits[..|waits| - 1]);
      ReapKeeps(ReapAll(s, waits[..|waits| - 1]), waits[|waits| - 1]);
    }
  }

  lemma {:induction false} ObserveAllKeeps(s: State, os: seq<Observation>)
    requires Isolated(s)
    ensures Isolated(ObserveAll(s, os))
    decreases |os|
  {
    if os != [] {
      var init := ObserveAll(s, os[..|os| - 1]);
      ObserveAllKeeps(s, os[..|os| - 1]);
      TableKeeps(init, Observe(init, os[|os| - 1]));
    }
  }

  /** A pass signals only groups that were already pending, and adds none. */
  lemma {:induction false} SweepTargets(cs: seq<Cleanup>, present: set<nat>, now: nat)
    ensures forall e :: e in SweepEvents(cs, present, now) ==> IsPending(cs, e.group)
    ensures forall c :: c in Kept(cs, present, now) ==> IsPending(cs, c.group)
    decreases |cs|
  {
    if cs != [] {
      var init, last := cs[..|cs| - 1], cs[|cs| - 1];
      SweepTargets(init, present, now);
      assert last in cs && forall c :: c in init ==> c in cs;
      assert forall g :: IsPending(init, g) ==> IsPending(cs, g);
      assert IsPending(cs, last.group);
    }
  }

  lemma SweepKeeps(s: State, present: set<nat>, now: nat)
    requires Isolated(s)
    ensures Isolated(Sweep(s, present, now))
  {
    SweepTargets(s.cleanups, present, now);
  }

  lemma DriveKeeps(s: State, t: Tick)
    requires Isolated(s)
    ensures Isolated(Drive(s, t).0)
  {
    ReapAllKeeps(s, t.waits);
    if !t.waitFault {
      var a := ReapAll(s, t.waits);
      ObserveAllKeeps(a, t.queued);
      SweepKeeps(ObserveAll(a, t.queued), t.present, t.now);
      var half := FirstHalf(s, t);
      assert Isolated(half);
      ObserveAllKeeps(half, t.late);
      var b := ReapAll(ObserveAll(half, t.late), t.lateWaits);
      ReapAllKeeps(ObserveAll(half, t.late), t.lateWaits);
      SweepKeeps(b, t.latePresent, t.lateNow);
    }
  }

  /** The system does not hand out a pid that is still in the table. */
  ghost predicate FreshPid(s: State, answer: SpawnAnswer) {
    answer.Running? ==> forall e :: e in s.procs ==> e.pid != answer.pid
  }

  lemma SpawnKeeps(s: State, p: Campd.Process, answer: SpawnAnswer)
    requires Isolated(s) && FreshPid(s, answer)
    ensures Isolated(Spawn(s, p, answer))
  {
    if Starts(p, answer) {
      var after := s.(procs := s.procs + [NewEntry(p, answer.pid)]);
      forall i, j | 0 <= i < j < |after.procs|
        ensures after.procs[i].pid != after.procs[j].pid
      {
        assert s.procs[i] in s.procs;
      }
      TableKeeps(s, after);
    }
  }

  lemma AtNextKeeps(s: State, p: Campd.Process, i: nat, t: Tick)
    requires Isolated(s) && FreshPid(s, t.spawned)
    ensures Isolated(AtNext(s, p, i, t).s)
  {
    SpawnKeeps(s, p, t.spawned);
  }

  lemma SameKeeps(s: State, after: State)
    requires Isolated(s) && after.procs == s.procs && after.log == s.log && after.cleanups == s.cleanups
    ensures Isolated(after)
  {
  }

  lemma AtGateKeeps(s: State, j: nat, deadline: nat, t: Tick)
    requires Isolated(s)
    ensures Isolated(AtGate(s, j, deadline, t).s)
  {
    hide Isolated, AtGate;
    var after := AtGate(s, j, deadline, t).s;
    Progress.GateLeavesTable(s, j, deadline, t);
    if after.log == s.log && after.cleanups == s.cleanups {
      SameKeeps(s, after);
    } else {
      assert s.procs[j] in s.procs;
      ScheduleKeeps(s, s.procs[j].pid, t.gatePresent, t.gateTermAt);
      SameKeeps(ScheduleCleanup(s, s.procs[j].pid, t.gatePresent, t.gateTermAt), after);
    }
  }

  lemma ShutdownKeeps(s: State)
    requires Isolated(s)
    ensures Isolated(Shutdown(s))
  {
    TableKeeps(s, Shutdown(s));
  }

  /** A call of `drive` adds no entry, so a fresh pid is still fresh after it. */
  lemma FreshThroughDrive(s: State, t: Tick)
    requires FreshPid(s, t.spawned)
    ensures FreshPid(Drive(s, t).0, t.spawned)
  {
    var after := Drive(s, t).0;
    Progress.DriveAdvances(s, t);
    forall e | t.spawned.Running? && e in after.procs
      ensures e.pid != t.spawned.pid
    {
      var j :| 0 <= j < |after.procs| && after.procs[j] == e;
      assert s.procs[j] in s.procs && Progress.Ages(s.procs[j], after.procs[j]);
    }
  }

  /** Every pid of a run was fresh when it was handed out. */
  ghost predicate FreshRun(plan: seq<Campd.Process>, ticks: seq<Tick>) {
    ticks == []
    || (FreshRun(plan, ticks[..|ticks| - 1])
        && var m := Steps(plan, ticks[..|ticks| - 1]);
           m.at.Next? ==> FreshPid(m.s, ticks[|ticks| - 1].spawned))
  }

  lemma FollowKeeps(plan: seq<Campd.Process>, s: State, o: Outcome, at: Control, t: Tick)
    requires Isolated(s) && (at.Next? ==> FreshPid(s, t.spawned))
    ensures Isolated(Follow(plan, s, o, at, t).s)
  {
    if !o.Idle? {
      ShutdownKeeps(s);
    } else if at.Next? && at.i < |plan| {
      AtNextKeeps(s, plan[at.i], at.i, t);
    } else if at.Gate? {
      AtGateKeeps(s, at.j, at.deadline, t);
    }
  }

  lemma StepKeeps(plan: seq<Campd.Process>, m: Machine, t: Tick)
    requires Isolated(m.s) && (m.at.Next? ==> FreshPid(m.s, t.spawned))
    ensures Isolated(Step(plan, m, t).s)
  {
    if !m.at.Stopped? && !m.at.Crashed? {
      var (s, o) := Drive(m.s, t);
      DriveKeeps(m.s, t);
      if m.at.Next? {
        FreshThroughDrive(m.s, t);
      }
      FollowKeeps(plan, s, o, m.at, t);
    }
  }

  lemma {:induction false} RunIsolated(plan: seq<Campd.Process>, ticks: seq<Tick>)
    requires FreshRun(plan, ticks)
    ensures Isolated(Steps(plan, ticks).s)
    decreases |ticks|
  {
    if ticks != [] {
      RunIsolated(plan, ticks[..|ticks| - 1]);
      StepKeeps(plan, Steps(plan, ticks[..|ticks| - 1]), ticks[|ticks| - 1]);
    }
  }

  // ------------------------------------------------- discarded children

  /** A child killed because its probe thread could not start is nobody's entry, and startup failed over it. */
  ghost predicate Discarded(s: State) {
    forall e :: e in s.log && e.Aborted? ==> s.failure.Some? && forall p :: p in s.procs ==> p.pid != e.group
  }

  /** Nothing is discarded between two states. */
  ghost predicate DiscardsNothing(before: State, after: State) {
    forall e :: e in after.log && e.Aborted? ==> e in before.log
  }

  lemma ReapDiscardsNothing(s: State, w: Wait)
    ensures DiscardsNothing(s, Reap(s, w))
  {
  }

  lemma {:induction false} ReapAllDiscardsNothing(s: State, waits: seq<Wait>)
    ensures DiscardsNothing(s, ReapAll(s, waits))
    decreases |waits|
  {
    if waits != [] {
      ReapAllDiscardsNothing(s, waits[..|waits| - 1]);
      ReapDiscardsNothing(ReapAll(s, waits[..|waits| - 1]), waits[|waits| - 1]);
    }
  }

  lemma {:induction false} SweepDiscardsNothing(cs: seq<Cleanup>, present: set<nat>, now: nat)
    ensures forall e :: e in SweepEvents(cs, present, now) ==> !e.Aborted?
    decreases |cs|
  {
    if cs != [] {
      SweepDiscardsNothing(cs[..|cs| - 1], present, now);
    }
  }

  lemma DriveDiscardsNothing(s: State, t: Tick)
    ensures DiscardsNothing(s, Drive(s, t).0)
  {
    var a := ReapAll(s, t.waits);
    ReapAllDiscardsNothing(s, t.waits);
    if !t.waitFault {
      var b := ObserveAll(a, t.queued);
      Lifecycle.ObserveAllTableOnly(a, t.queued);
      SweepDiscardsNothing(b.cleanups, t.present, t.now);
      var half := FirstHalf(s, t);
      var c := ObserveAll(half, t.late);
      Lifecycle.ObserveAllTableOnly(half, t.late);
      var d := ReapAll(c, t.lateWaits);
      ReapAllDiscardsNothing(c, t.lateWaits);
      SweepDiscardsNothing(d.cleanups, t.latePresent, t.lateNow);
    }
  }

  /** What keeps pids and a failure and discards nothing keeps the invariant. */
  lemma SamePidsKeepDiscarded(s: State, after: State)
    requires Discarded(s) && DiscardsNothing(s, after)
    requires |after.procs| == |s.procs| && forall j :: 0 <= j < |s.procs| ==> after.procs[j].pid == s.procs[j].pid
    requires s.failure.Some? ==> after.failure.Some?
    ensures Discarded(after)
  {
    forall e, p | e in after.log && e.Aborted? && p in after.procs
      ensures p.pid != e.group
    {
      var j :| 0 <= j < |after.procs| && after.procs[j] == p;
      assert s.procs[j] in s.procs;
    }
  }

  lemma FollowDiscards(plan: seq<Campd.Process>, s: State, o: Outcome, at: Control, t: Tick)
    requires Discarded(s) && (at.Next? ==> FreshPid(s, t.spawned))
    ensures Discarded(Follow(plan, s, o, at, t).s)
  {
    hide AtGate, ReadyNow;
    var after := Follow(plan, s, o, at, t).s;
    if at.Gate? {
      Progress.GateLeavesTable(s, at.j, at.deadline, t);
    }
    if !(o.Idle? && at.Next? && at.i < |plan|) {
      SamePidsKeepDiscarded(s, after);
    }
  }

  lemma StepDiscards(plan: seq<Campd.Process>, m: Machine, t: Tick)
    requires Discarded(m.s) && (m.at.Next? ==> FreshPid(m.s, t.spawned))
    ensures Discarded(Step(plan, m, t).s)
  {
    if !m.at.Stopped? && !m.at.Crashed? {
      var (s, o) := Drive(m.s, t);
      DriveDiscardsNothing(m.s, t);
      Progress.DriveAdvances(m.s, t);
      forall j | 0 <= j < |m.s.procs|
        ensures s.procs[j].pid == m.s.procs[j].pid
      {
        assert Progress.Ages(m.s.procs[j], s.procs[j]);
      }
      SamePidsKeepDiscarded(m.s, s);
      if m.at.Next? {
        FreshThroughDrive(m.s, t);
      }
      FollowDiscards(plan, s, o, m.at, t);
    }
  }

  lemma {:induction false} RunDiscards(plan: seq<Campd.Process>, ticks: seq<Tick>)
    requires FreshRun(plan, ticks)
    ensures Discarded(Steps(plan, ticks).s)
    decreases |ticks|
  {
    if ticks != [] {
      RunDiscards(plan, ticks[..|ticks| - 1]);
      StepDiscards(plan, Steps(plan, ticks[..|ticks| - 1]), ticks[|ticks| - 1]);
    }
  }

  /**
   Over every run with fresh pids, whatever signal went to a group before
   shutdown. A TERM or KILL of a cleanup went to a tracked process that has
   exited or is a job; the KILL of a child whose probe thread could not start
   went to a group that no entry of the table has, then or in any later state,
   and startup has failed. In no case does a live service have that group.
   */
  lemma PeersUndisturbed(plan: seq<Campd.Process>, ticks: seq<Tick>, k: nat, signal: Event)
    requires FreshRun(plan, ticks) && k <= |ticks|
    requires signal in Steps(plan, ticks[..k]).s.log && (IsSignal(signal) || signal.Aborted?)
    ensures var s := Steps(plan, ticks).s;
            && (IsSignal(signal) ==> FairGame(s.procs, signal.group))
            && (signal.Aborted? ==> s.failure.Some? && forall e :: e in s.procs ==> e.pid != signal.group)
            && forall e :: e in s.procs && e.kind.Service? && e.alive ==> e.pid != signal.group
  {
    Lifecycle.RunPrecedes(plan, ticks, k);
    RunIsolated(plan, ticks);
    RunDiscards(plan, ticks);
    if IsSignal(signal) {
      FairMeansNoLiveService(Steps(plan, ticks).s.procs, signal.group);
    }
  }
}
