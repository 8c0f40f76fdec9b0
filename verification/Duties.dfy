/**
 What the supervisor must do, whatever it is told: pursue every process group
 that outlives its process, stop with everything that is left, and name the
 true reason of a failed startup.
 */
module Duties {
  import opened Wrappers
  import opened Supervision
  import Campd
  import Escalation
  import Isolation
  import Lifecycle
  import Progress
  import StartupProgress
  import Teardown

  // ---------------------------------------------------- how a run ends

  /** A step ends the run exactly if `waitpid` fails or a signal is found, and then with that signal. */
  lemma StepEnds(plan: seq<Campd.Process>, m: Machine, t: Tick)
    requires Lifecycle.Reachable(plan, m) && !m.at.Stopped? && !m.at.Crashed?
    ensures var at := Step(plan, m, t).at;
            && (at.Crashed? <==> t.waitFault || (t.signal.None? && t.lateFault))
            && (at.Stopped? <==> !t.waitFault && (t.signal.Some? || (!t.lateFault && t.lateSignal.Some?)))
            && (at.Stopped? ==>
                  at.code == 128 + if t.signal.Some? then t.signal.value else t.lateSignal.value)
  {
    hide ReadyNow, IsPending, Groups, ReapAll, ObserveAll, Sweep;
    Progress.DriveAdvances(m.s, t);
  }

  /** A group that shutdown must signal: of a live process, left by an exited one, or still being pursued. */
  ghost predicate Remains(s: State, g: nat) {
    || (exists e :: e in s.procs && e.pid == g && (e.alive || e.residualGroup))
    || !Escalation.PhaseOf(s.log, g).Quiet?
  }

  lemma {:induction false} StoppedGroups(plan: seq<Campd.Process>, ticks: seq<Tick>)
    ensures var m := Steps(plan, ticks); m.at.Stopped? ==> m.at.groups == Groups(m.s)
    decreases |ticks|
  {
    hide Groups;
    if ticks != [] {
      var m, t := Steps(plan, ticks[..|ticks| - 1]), ticks[|ticks| - 1];
      StoppedGroups(plan, ticks[..|ticks| - 1]);
      if !m.at.Stopped? && !m.at.Crashed? {
        StopTakesAll(plan, Drive(m.s, t).0, Drive(m.s, t).1, m.at, t);
      }
    }
  }

  lemma StopTakesAll(plan: seq<Campd.Process>, s: State, o: Outcome, at: Control, t: Tick)
    requires !at.Stopped? && !at.Crashed?
    ensures var m := Follow(plan, s, o, at, t); m.at.Stopped? ==> m.at.groups == Groups(m.s)
  {
    hide ReadyNow, IsPending, Groups;
    Progress.CancelledGroups(s);
    SameGroups(Shutdown(s), s.(procs := CancelAll(s.procs)));
  }

  lemma SameGroups(a: State, b: State)
    requires a.procs == b.procs && a.cleanups == b.cleanups
    ensures Groups(a) == Groups(b)
  {
  }

  /**
   Over every run that a signal stopped, the groups it stopped with are those
   of processes that are alive, those left behind by exited ones, and those
   whose TERM-KILL episode the log shows open; no others.
   */
  lemma StopMeaning(plan: seq<Campd.Process>, ticks: seq<Tick>, g: nat)
    requires Steps(plan, ticks).at.Stopped?
    ensures g in Steps(plan, ticks).at.groups <==> Remains(Steps(plan, ticks).s, g)
  {
    var s := Steps(plan, ticks).s;
    StoppedGroups(plan, ticks);
    Escalation.RunOrderly(plan, ticks);
    Escalation.ExpectedMeaning(s.cleanups, g);
  }

  /** Each of them gets the received signal exactly once in the teardown, and nobody else does. */
  lemma StopSignals(plan: seq<Campd.Process>, ticks: seq<Tick>, polls: nat -> Teardown.Poll, r: Teardown.Report, g: nat)
    requires var at := Steps(plan, ticks).at;
             && at.Stopped? && at.code >= 128 && at.code - 128 != Teardown.SIGKILL
             && Teardown.TornDown(at.groups, at.code - 128, polls, r)
    ensures var m := Steps(plan, ticks);
            multiset(r.sent)[Teardown.Sent(g, m.at.code - 128)] == if Remains(m.s, g) then 1 else 0
  {
    var at := Steps(plan, ticks).at;
    StopMeaning(plan, ticks, g);
    Teardown.TeardownMeaning(at.groups, at.code - 128, polls, r, g);
  }

  // ------------------------------------------------ leftovers are pursued

  /** When a child was reported with a group that both checks still saw. */
  function LeftBehind(waits: seq<Wait>, pid: nat): Option<nat> {
    var k := Lifecycle.FirstAbout(waits, pid);
    if k < |waits| && waits[k].lingers && waits[k].stillLingers then Some(waits[k].now) else None
  }

  predicate IsReported(waits: seq<Wait>, pid: nat) {
    Lifecycle.FirstAbout(waits, pid) < |waits|
  }

  /** One answer opens a cleanup for a live entry's group exactly if it leaves that group behind. */
  lemma ReapPursues(s: State, w: Wait, j: nat)
    requires Progress.DistinctPids(s.procs) && j < |s.procs|
    ensures var after, e := Reap(s, w), s.procs[j];
            var left := w.Child? && w.pid == e.pid && e.alive && w.lingers && w.stillLingers;
            && (IsPending(after.cleanups, e.pid) <==> IsPending(s.cleanups, e.pid) || left)
            && (left && !IsPending(s.cleanups, e.pid) ==> Terminated(e.pid, w.now) in after.log)
            && s.log <= after.log
  {
    if w.Child? {
      var i := FindLive(s.procs, w.pid);
      if i < |s.procs| {
        assert w.pid == s.procs[j].pid ==> i == j by { assert i < j ==> s.procs[i].pid != s.procs[j].pid; }
        SchedulePends(Buried(s, i, w.status, w.lingers), w.pid, w.stillLingers, w.now, s.procs[j].pid);
      }
    }
  }

  lemma SchedulePends(s: State, group: nat, present: bool, now: nat, g: nat)
    ensures var after := ScheduleCleanup(s, group, present, now);
            && (IsPending(after.cleanups, g) <==> IsPending(s.cleanups, g) || (g == group && present))
            && (present && !IsPending(s.cleanups, group) ==> Terminated(group, now) in after.log)
            && s.log <= after.log
  {
    var after := ScheduleCleanup(s, group, present, now);
    if present && !IsPending(s.cleanups, group) {
      var c := after.cleanups[|s.cleanups|];
      assert c in after.cleanups && c.group == group;
      assert forall d :: d in after.cleanups <==> d in s.cleanups || d == c;
    }
  }

  /** A round of reaping opens a cleanup for a live entry's group exactly if its first report leaves it behind. */
  lemma {:induction false} ReapAllPursues(s: State, waits: seq<Wait>, j: nat)
    requires Progress.DistinctPids(s.procs) && j < |s.procs| && s.procs[j].alive
    ensures var after, pid := ReapAll(s, waits), s.procs[j].pid;
            && (IsPending(after.cleanups, pid) <==> IsPending(s.cleanups, pid) || LeftBehind(waits, pid).Some?)
            && (LeftBehind(waits, pid).Some? && !IsPending(s.cleanups, pid) ==>
                  Terminated(pid, LeftBehind(waits, pid).value) in after.log)
            && s.log <= after.log
    decreases |waits|
  {
    if waits != [] {
      var init, w := waits[..|waits| - 1], waits[|waits| - 1];
      assert waits == init + [w];
      ReapAllPursues(s, init, j);
      Lifecycle.ReapAllMeaning(s, init, j);
      Lifecycle.FirstAboutSnoc(init, w, s.procs[j].pid);
      ReapPursues(ReapAll(s, init), w, j);
    }
  }

  /** When the group of a live entry is left behind in one call of `drive`. */
  function DebtOf(t: Tick, pid: nat): Option<nat> {
    if IsReported(t.waits, pid) then LeftBehind(t.waits, pid)
    else if t.waitFault || t.signal.Some? then None
    else LeftBehind(t.lateWaits, pid)
  }

  lemma LogGrows(s: State, t: Tick)
    ensures ReapAll(s, t.waits).log <= Drive(s, t).0.log
    ensures !t.waitFault && t.signal.None? ==>
              ReapAll(ObserveAll(FirstHalf(s, t), t.late), t.lateWaits).log <= Drive(s, t).0.log
  {
    hide ReapAll, ObserveAll, SweepEvents, Kept, ReadyNow;
    var a := ReapAll(s, t.waits);
    Lifecycle.ObserveAllTableOnly(a, t.queued);
    var half := FirstHalf(s, t);
    Lifecycle.ObserveAllTableOnly(half, t.late);
    Progress.ReapAllAdvances(ObserveAll(half, t.late), t.lateWaits);
  }

  /** The first half of a call adds no cleanup for an entry it does not reap. */
  lemma HalfOpensNothing(s: State, t: Tick, j: nat)
    requires Progress.DistinctPids(s.procs) && j < |s.procs| && s.procs[j].alive && !IsReported(t.waits, s.procs[j].pid)
    ensures var c := ObserveAll(FirstHalf(s, t), t.late);
            && Progress.DistinctPids(c.procs) && |c.procs| == |s.procs|
            && c.procs[j].pid == s.procs[j].pid && c.procs[j].alive
            && (IsPending(c.cleanups, s.procs[j].pid) ==> IsPending(s.cleanups, s.procs[j].pid))
  {
    var a := ReapAll(s, t.waits);
    var half := FirstHalf(s, t);
    ReapAllPursues(s, t.waits, j);
    Lifecycle.ReapAllMeaning(s, t.waits, j);
    Lifecycle.ObserveAllMeaning(a, t.queued, j);
    Lifecycle.ObserveAllTableOnly(a, t.queued);
    Progress.ObserveAllAdvances(a, t.queued);
    Isolation.SweepTargets(a.cleanups, t.present, t.now);
    Lifecycle.ObserveAllMeaning(half, t.late, j);
    Lifecycle.ObserveAllTableOnly(half, t.late);
    Progress.ObserveAllAdvances(half, t.late);
  }

  /** One call of `drive` sends TERM to every group left behind, unless it is being pursued already. */
  lemma DrivePursues(s: State, t: Tick, j: nat)
    requires Progress.DistinctPids(s.procs) && j < |s.procs| && s.procs[j].alive
    requires DebtOf(t, s.procs[j].pid).Some?
    ensures var pid := s.procs[j].pid;
            IsPending(s.cleanups, pid) || Terminated(pid, DebtOf(t, pid).value) in Drive(s, t).0.log
  {
    hide ReapAll, ObserveAll, FirstHalf, Drive, LeftBehind;
    LogGrows(s, t);
    ReapAllPursues(s, t.waits, j);
    if !IsReported(t.waits, s.procs[j].pid) {
      HalfOpensNothing(s, t, j);
      ReapAllPursues(ObserveAll(FirstHalf(s, t), t.late), t.lateWaits, j);
    }
  }

  /** The job of a gate is given up while it is still alive: startup failed, or its time is up. */
  ghost predicate GivenUp(m: Machine, t: Tick) {
    && m.at.Gate? && m.at.j < |m.s.procs| && m.s.procs[m.at.j].kind.RunToCompletion?
    && StartupProgress.Calm(t) && StartupProgress.Report(t, m.s.procs[m.at.j].pid).None?
    && (!StartupProgress.ServicesSilent(m.s, t) || t.gateNow >= m.at.deadline)
  }

  /** In a step from `m` the process group `g` must be pursued: TERM is due at `now`. */
  ghost predicate Owes(m: Machine, t: Tick, g: nat, now: nat) {
    && !m.at.Stopped? && !m.at.Crashed?
    && exists j :: 0 <= j < |m.s.procs| && m.s.procs[j].alive && m.s.procs[j].pid == g
         && (DebtOf(t, g) == Some(now)
             || (m.at.Gate? && GivenUp(m, t) && m.at.j == j && t.gatePresent && now == t.gateTermAt))
  }

  lemma FollowKeepsLog(plan: seq<Campd.Process>, s: State, o: Outcome, at: Control, t: Tick)
    requires !at.Stopped? && !at.Crashed?
    ensures s.log <= Follow(plan, s, o, at, t).s.log
  {
    Lifecycle.FollowPrecedes(plan, s, o, at, t);
  }

  lemma GatePursues(plan: seq<Campd.Process>, m: Machine, t: Tick)
    requires Lifecycle.Reachable(plan, m) && Progress.DistinctPids(m.s.procs)
    requires GivenUp(m, t) && m.s.procs[m.at.j].alive && t.gatePresent
    ensures var pid := m.s.procs[m.at.j].pid;
            IsPending(m.s.cleanups, pid) || Terminated(pid, t.gateTermAt) in Step(plan, m, t).s.log
  {
    var j := m.at.j;
    var s := Drive(m.s, t).0;
    var pid := m.s.procs[j].pid;
    Progress.DriveAdvances(m.s, t);
    StartupProgress.DriveMeaning(m.s, t, j);
    StartupProgress.DriveFails(m.s, t);
    Lifecycle.DriveConsistent(m.s, t);
    assert m.s.procs[j] in m.s.procs && s.procs[j] in s.procs && s.procs[j].alive;
    DriveOpensNothing(m.s, t, j);
    SchedulePends(s, pid, t.gatePresent, t.gateTermAt, pid);
    GateSchedules(s, j, m.at.deadline, t);
  }

  lemma GateSchedules(s: State, j: nat, deadline: nat, t: Tick)
    requires j < |s.procs| && s.procs[j].kind.RunToCompletion? && s.procs[j].alive && s.procs[j].exitStatus.None?
    requires s.failure.Some? || t.gateNow >= deadline
    ensures AtGate(s, j, deadline, t).s.log == ScheduleCleanup(s, s.procs[j].pid, t.gatePresent, t.gateTermAt).log
  {
    hide ReadyNow, IsPending;
  }

  /** A call of `drive` adds no cleanup for an entry it does not reap. */
  lemma DriveOpensNothing(s: State, t: Tick, j: nat)
    requires StartupProgress.Calm(t) && Progress.DistinctPids(s.procs)
    requires j < |s.procs| && s.procs[j].alive && StartupProgress.Report(t, s.procs[j].pid).None?
    ensures IsPending(Drive(s, t).0.cleanups, s.procs[j].pid) ==> IsPending(s.cleanups, s.procs[j].pid)
  {
    var c := ObserveAll(FirstHalf(s, t), t.late);
    HalfOpensNothing(s, t, j);
    ReapAllPursues(c, t.lateWaits, j);
    Isolation.SweepTargets(ReapAll(c, t.lateWaits).cleanups, t.latePresent, t.lateNow);
  }

  /** A step that owes it sends TERM, unless the group is being pursued already. */
  lemma StepPursues(plan: seq<Campd.Process>, m: Machine, t: Tick, g: nat, now: nat)
    requires Lifecycle.Reachable(plan, m) && Progress.DistinctPids(m.s.procs) && Owes(m, t, g, now)
    ensures IsPending(m.s.cleanups, g) || Terminated(g, now) in Step(plan, m, t).s.log
  {
    hide Lifecycle.Reachable, GivenUp, DebtOf, IsPending, Drive, Follow;
    var j :| 0 <= j < |m.s.procs| && m.s.procs[j].alive && m.s.procs[j].pid == g
      && (DebtOf(t, g) == Some(now)
          || (m.at.Gate? && GivenUp(m, t) && m.at.j == j && t.gatePresent && now == t.gateTermAt));
    if DebtOf(t, g) == Some(now) {
      DrivePursues(m.s, t, j);
      FollowKeepsLog(plan, Drive(m.s, t).0, Drive(m.s, t).1, m.at, t);
    } else {
      GatePursues(plan, m, t);
    }
  }

  // ------------------------------------------------- every TERM is settled

  /** TERM was sent to the group at place `p`, and since then it is still pending or was released. */
  ghost predicate Settled(s: State, p: nat, g: nat) {
    && p < |s.log| && s.log[p].Terminated? && s.log[p].group == g
    && (IsPending(s.cleanups, g) || exists q :: p < q < |s.log| && s.log[q].Released? && s.log[q].group == g)
  }

  lemma {:induction false} OpenOrReleased(log: seq<Event>, p: nat, g: nat)
    requires p < |log| && log[p].Terminated? && log[p].group == g && Escalation.PhaseOf(log, g) != Escalation.Wrong
    ensures !Escalation.PhaseOf(log, g).Quiet? || exists q :: p < q < |log| && log[q].Released? && log[q].group == g
    decreases |log|
  {
    var init := log[..|log| - 1];
    if p < |init| {
      Escalation.PrefixNotWrong(log, g, |init|);
      OpenOrReleased(init, p, g);
      assert forall q :: 0 <= q < |init| ==> init[q] == log[q];
      var last := log[|log| - 1];
      if last.group == g && last.Released? {
        assert p < |init| < |log| && log[|init|] == last;
      }
    }
  }

  lemma TermIsSettled(s: State, p: nat, g: nat)
    requires Escalation.Orderly(s) && p < |s.log| && s.log[p].Terminated? && s.log[p].group == g
    ensures Settled(s, p, g)
  {
    Escalation.ExpectedMeaning(s.cleanups, g);
    OpenOrReleased(s.log, p, g);
  }

  /**
   Over every run with fresh pids: whenever a step owes it, the group has been
   sent TERM, at the time of that step unless it was being pursued already,
   and ever since it is either still pending or has been released.
   */
  lemma LeftoversPursued(plan: seq<Campd.Process>, ticks: seq<Tick>, k: nat, g: nat, now: nat) returns (p: nat)
    requires k < |ticks| && Isolation.FreshRun(plan, ticks[..k]) && Owes(Steps(plan, ticks[..k]), ticks[k], g, now)
    ensures Settled(Steps(plan, ticks).s, p, g)
    ensures Steps(plan, ticks).s.log[p].at == now || IsPending(Steps(plan, ticks[..k]).s.cleanups, g)
  {
    var m, late := Steps(plan, ticks[..k]), Steps(plan, ticks);
    Lifecycle.RunReachable(plan, ticks[..k]);
    Isolation.RunIsolated(plan, ticks[..k]);
    Escalation.RunOrderly(plan, ticks[..k]);
    Escalation.RunOrderly(plan, ticks);
    StepPursues(plan, m, ticks[k], g, now);
    assert ticks[..k + 1][..k] == ticks[..k];
    Lifecycle.RunPrecedes(plan, ticks, k);
    Lifecycle.RunPrecedes(plan, ticks, k + 1);
    if IsPending(m.s.cleanups, g) {
      p := PendingHasTerm(m.s, g);
    } else {
      var log := Steps(plan, ticks[..k + 1]).s.log;
      p :| 0 <= p < |log| && log[p] == Terminated(g, now);
    }
    TermIsSettled(late.s, p, g);
  }

  lemma PendingHasTerm(s: State, g: nat) returns (p: nat)
    requires Escalation.Orderly(s) && IsPending(s.cleanups, g)
    ensures p < |s.log| && s.log[p].Terminated? && s.log[p].group == g
  {
    Escalation.ExpectedMeaning(s.cleanups, g);
    p := TermOf(s.log, g);
  }

  lemma {:induction false} TermOf(log: seq<Event>, g: nat) returns (p: nat)
    requires !Escalation.PhaseOf(log, g).Quiet? && Escalation.PhaseOf(log, g) != Escalation.Wrong
    ensures p < |log| && log[p].Terminated? && log[p].group == g
    decreases |log|
  {
    var last := log[|log| - 1];
    p := |log| - 1;
    if !(last.group == g && last.Terminated?) {
      p := TermOf(log[..|log| - 1], g);
    }
  }

  // --------------------------------------------------- nobody else is sent TERM

  /** From place `from` on, the log sends TERM only for these debts of live entries. */
  ghost predicate OnlyFor(procs: seq<Entry>, log: seq<Event>, from: nat, debt: nat -> Option<nat>) {
    forall p :: from <= p < |log| && log[p].Terminated? ==> IsDebt(procs, debt, log[p].group, log[p].at)
  }

  ghost predicate IsDebt(procs: seq<Entry>, debt: nat -> Option<nat>, g: nat, at: nat) {
    debt(g) == Some(at) && exists j :: 0 <= j < |procs| && procs[j].alive && procs[j].pid == g
  }

  lemma {:induction false} ReapAllOnly(s: State, waits: seq<Wait>)
    requires Progress.DistinctPids(s.procs)
    ensures s.log <= ReapAll(s, waits).log
    ensures OnlyFor(s.procs, ReapAll(s, waits).log, |s.log|, pid => LeftBehind(waits, pid))
    decreases |waits|
  {
    Progress.ReapAllAdvances(s, waits);
    if waits != [] {
      var init, w := waits[..|waits| - 1], waits[|waits| - 1];
      assert waits == init + [w];
      ReapAllOnly(s, init);
      var before, after := ReapAll(s, init), ReapAll(s, waits);
      forall p | |s.log| <= p < |after.log| && after.log[p].Terminated?
        ensures IsDebt(s.procs, pid => LeftBehind(waits, pid), after.log[p].group, after.log[p].at)
      {
        var g := after.log[p].group;
        Lifecycle.FirstAboutSnoc(init, w, g);
        if p < |before.log| {
          ReapLog(before, w);
          assert after.log[p] == before.log[p];
          assert IsDebt(s.procs, pid => LeftBehind(init, pid), g, after.log[p].at);
        } else {
          ReapLog(before, w);
          var i := FindLive(before.procs, w.pid);
          Progress.ReapAllAdvances(s, init);
          Lifecycle.ReapAllMeaning(s, init, i);
        }
      }
    }
  }

  /** One answer logs at most one TERM, for a live entry it leaves behind. */
  lemma ReapLog(s: State, w: Wait)
    ensures var log := Reap(s, w).log;
            || log == s.log
            || (w.Child? && w.lingers && w.stillLingers && FindLive(s.procs, w.pid) < |s.procs|
                && log == s.log + [Terminated(w.pid, w.now)])
  {
  }

  lemma {:induction false} SweepSendsNoTerm(cs: seq<Cleanup>, present: set<nat>, now: nat)
    ensures forall e :: e in SweepEvents(cs, present, now) ==> !e.Terminated?
    decreases |cs|
  {
    if cs != [] {
      SweepSendsNoTerm(cs[..|cs| - 1], present, now);
    }
  }

  lemma DriveOnly(s: State, t: Tick)
    requires Progress.DistinctPids(s.procs)
    ensures OnlyFor(s.procs, Drive(s, t).0.log, |s.log|, pid => DebtOf(t, pid))
  {
    var a := ReapAll(s, t.waits);
    ReapAllOnly(s, t.waits);
    OnlyReported(s, a.log, t);
    if !t.waitFault {
      Lifecycle.ObserveAllTableOnly(a, t.queued);
      SweepSendsNoTerm(a.cleanups, t.present, t.now);
      var half := FirstHalf(s, t);
      OnlyExtends(s.procs, a.log, half.log, |s.log|, pid => DebtOf(t, pid));
      if t.signal.None? {
        var c := ObserveAll(half, t.late);
        Lifecycle.ObserveAllTableOnly(half, t.late);
        DistinctStays(s, t);
        ReapAllOnly(c, t.lateWaits);
        var d := ReapAll(c, t.lateWaits);
        LateOnly(s, t);
        SweepSendsNoTerm(d.cleanups, t.latePresent, t.lateNow);
        if !t.lateFault {
          OnlyExtends(s.procs, d.log, SecondHalf(half, t).log, |s.log|, pid => DebtOf(t, pid));
        }
      }
    }
  }

  lemma OnlyReported(s: State, log: seq<Event>, t: Tick)
    requires OnlyFor(s.procs, log, |s.log|, pid => LeftBehind(t.waits, pid))
    ensures OnlyFor(s.procs, log, |s.log|, pid => DebtOf(t, pid))
  {
    forall p | |s.log| <= p < |log| && log[p].Terminated?
      ensures IsDebt(s.procs, pid => DebtOf(t, pid), log[p].group, log[p].at)
    {
      assert IsDebt(s.procs, pid => LeftBehind(t.waits, pid), log[p].group, log[p].at);
    }
  }

  lemma OnlyExtends(procs: seq<Entry>, log: seq<Event>, longer: seq<Event>, from: nat, debt: nat -> Option<nat>)
    requires OnlyFor(procs, log, from, debt) && log <= longer
    requires forall e :: e in longer[|log|..] ==> !e.Terminated?
    ensures OnlyFor(procs, longer, from, debt)
  {
    forall p | from <= p < |longer| && longer[p].Terminated?
      ensures IsDebt(procs, debt, longer[p].group, longer[p].at)
    {
      if p < |log| {
        assert longer[p] == log[p];
      }
    }
  }

  lemma DistinctStays(s: State, t: Tick)
    requires Progress.DistinctPids(s.procs)
    ensures Progress.DistinctPids(ObserveAll(FirstHalf(s, t), t.late).procs)
  {
    var a, half := ReapAll(s, t.waits), FirstHalf(s, t);
    Progress.ReapAllAdvances(s, t.waits);
    Progress.ObserveAllAdvances(a, t.queued);
    Progress.ObserveAllAdvances(half, t.late);
  }

  lemma LateOnly(s: State, t: Tick)
    requires Progress.DistinctPids(s.procs) && !t.waitFault && t.signal.None?
    requires OnlyFor(s.procs, FirstHalf(s, t).log, |s.log|, pid => DebtOf(t, pid))
    requires var c := ObserveAll(FirstHalf(s, t), t.late);
             c.log == FirstHalf(s, t).log
             && OnlyFor(c.procs, ReapAll(c, t.lateWaits).log, |c.log|, pid => LeftBehind(t.lateWaits, pid))
    ensures OnlyFor(s.procs, ReapAll(ObserveAll(FirstHalf(s, t), t.late), t.lateWaits).log, |s.log|,
                    pid => DebtOf(t, pid))
  {
    var half := FirstHalf(s, t);
    var c := ObserveAll(half, t.late);
    var log := ReapAll(c, t.lateWaits).log;
    Progress.ReapAllAdvances(c, t.lateWaits);
    forall p | |s.log| <= p < |log| && log[p].Terminated?
      ensures IsDebt(s.procs, pid => DebtOf(t, pid), log[p].group, log[p].at)
    {
      if p < |c.log| {
        assert log[p] == half.log[p];
      } else {
        assert IsDebt(c.procs, pid => LeftBehind(t.lateWaits, pid), log[p].group, log[p].at);
        var j :| 0 <= j < |c.procs| && c.procs[j].alive && c.procs[j].pid == log[p].group;
        LateIsUnreported(s, t, j);
      }
    }
  }

  /** An entry still alive after the first half was alive before and not reported in it. */
  lemma LateIsUnreported(s: State, t: Tick, j: nat)
    requires Progress.DistinctPids(s.procs)
    requires var c := ObserveAll(FirstHalf(s, t), t.late); j < |c.procs| && c.procs[j].alive
    ensures var c := ObserveAll(FirstHalf(s, t), t.late);
            && j < |s.procs| && s.procs[j].alive && s.procs[j].pid == c.procs[j].pid
            && !IsReported(t.waits, c.procs[j].pid)
  {
    var a, half := ReapAll(s, t.waits), FirstHalf(s, t);
    Progress.ReapAllAdvances(s, t.waits);
    Progress.ObserveAllAdvances(a, t.queued);
    Progress.ObserveAllAdvances(half, t.late);
    Lifecycle.ReapAllMeaning(s, t.waits, j);
    Lifecycle.ObserveAllMeaning(a, t.queued, j);
    Lifecycle.ObserveAllMeaning(half, t.late, j);
  }

  lemma FollowTerms(plan: seq<Campd.Process>, s: State, o: Outcome, at: Control, t: Tick, p: nat)
    requires !at.Stopped? && !at.Crashed?
    requires var log := Follow(plan, s, o, at, t).s.log; |s.log| <= p < |log| && log[p].Terminated?
    ensures var e := Follow(plan, s, o, at, t).s.log[p];
            && o.Idle? && at.Gate? && at.j < |s.procs|
            && var job := s.procs[at.j];
               && job.kind.RunToCompletion? && job.pid == e.group && t.gatePresent && e.at == t.gateTermAt
               && ((s.failure.Some? && job.alive)
                   || (s.failure.None? && job.exitStatus.None? && t.gateNow >= at.deadline))
  {
    hide ReadyNow, IsPending;
  }

  /** TERM is sent in a step only where that step owes it. */
  lemma TermsAreOwed(plan: seq<Campd.Process>, m: Machine, t: Tick, p: nat)
    requires Lifecycle.Reachable(plan, m) && Progress.DistinctPids(m.s.procs) && !m.at.Stopped? && !m.at.Crashed?
    requires var log := Step(plan, m, t).s.log; |m.s.log| <= p < |log| && log[p].Terminated?
    ensures var e := Step(plan, m, t).s.log[p]; Owes(m, t, e.group, e.at)
  {
    var (s, o) := Drive(m.s, t);
    var e := Step(plan, m, t).s.log[p];
    DriveOnly(m.s, t);
    Progress.DriveAdvances(m.s, t);
    FollowKeepsLog(plan, s, o, m.at, t);
    if p < |s.log| {
      assert s.log[p] == e;
      assert IsDebt(m.s.procs, pid => DebtOf(t, pid), e.group, e.at);
    } else {
      FollowTerms(plan, s, o, m.at, t, p);
      GateWasOwed(plan, m, t);
    }
  }

  lemma GateWasOwed(plan: seq<Campd.Process>, m: Machine, t: Tick)
    requires Lifecycle.Reachable(plan, m) && Progress.DistinctPids(m.s.procs) && m.at.Gate?
    requires Drive(m.s, t).1.Idle? && m.at.j < |Drive(m.s, t).0.procs|
    requires var (s, j) := (Drive(m.s, t).0, m.at.j);
             && s.procs[j].kind.RunToCompletion? && t.gatePresent
             && ((s.failure.Some? && s.procs[j].alive)
                 || (s.failure.None? && s.procs[j].exitStatus.None? && t.gateNow >= m.at.deadline))
    ensures Owes(m, t, Drive(m.s, t).0.procs[m.at.j].pid, t.gateTermAt)
  {
    var (s, j) := (Drive(m.s, t).0, m.at.j);
    assert StartupProgress.Calm(t);
    Progress.DriveAdvances(m.s, t);
    assert Progress.Ages(m.s.procs[j], s.procs[j]);
    StartupProgress.DriveMeaning(m.s, t, j);
    StartupProgress.DriveFails(m.s, t);
    Lifecycle.DriveConsistent(m.s, t);
    assert m.s.procs[j] in m.s.procs && s.procs[j] in s.procs && s.procs[j].alive;
    hide Lifecycle.Reachable, Lifecycle.Consistent, Drive, StartupProgress.Report, StartupProgress.ServicesSilent;
    assert GivenUp(m, t);
  }

  lemma {:induction false} OpenedAt(log: seq<Event>, g: nat) returns (p: nat)
    requires var phase := Escalation.PhaseOf(log, g); phase.Asked? || phase.Forced?
    ensures p < |log| && log[p] == Terminated(g, Escalation.PhaseOf(log, g).at)
    decreases |log|
  {
    var last := log[|log| - 1];
    p := |log| - 1;
    if !(last.group == g && last.Terminated?) {
      p := OpenedAt(log[..|log| - 1], g);
    }
  }

  /** Over every run a pending cleanup is due for KILL five seconds after its TERM and given up after six. */
  lemma PendingTimes(plan: seq<Campd.Process>, ticks: seq<Tick>, c: Cleanup) returns (p: nat)
    requires c in Steps(plan, ticks).s.cleanups
    ensures var log := Steps(plan, ticks).s.log;
            && p < |log| && log[p].Terminated? && log[p].group == c.group
            && c.killAt == log[p].at + 5_000 && c.giveUpAt == log[p].at + 6_000
  {
    var s := Steps(plan, ticks).s;
    Escalation.RunOrderly(plan, ticks);
    ExpectedOf(s.cleanups, c);
    p := OpenedAt(s.log, c.group);
  }

  lemma {:induction false} ExpectedOf(cs: seq<Cleanup>, c: Cleanup)
    requires c in cs && Escalation.DistinctGroups(cs) && forall d :: d in cs ==> Escalation.Timed(d)
    ensures var phase := Escalation.Expected(cs, c.group);
            (phase.Asked? || phase.Forced?) && phase.at == c.killAt - SHUTDOWN_GRACE
    decreases |cs|
  {
    var init, last := cs[..|cs| - 1], cs[|cs| - 1];
    assert cs == init + [last];
    if last.group != c.group {
      ExpectedOf(init, c);
    } else {
      var i :| 0 <= i < |cs| && cs[i] == c;
      assert i == |cs| - 1;
    }
  }

  // ------------------------------------------------------ both passes run

  lemma {:induction false} ReapAllKeepsCleanups(s: State, waits: seq<Wait>)
    ensures s.cleanups <= ReapAll(s, waits).cleanups
    decreases |waits|
  {
    if waits != [] {
      ReapAllKeepsCleanups(s, waits[..|waits| - 1]);
    }
  }

  /** What both passes of a calm call make of a cleanup whose group both of them still see in time. */
  function Passed(c: Cleanup, t: Tick): Cleanup {
    c.(killed := c.killed || t.now >= c.killAt || t.lateNow >= c.killAt)
  }

  /**
   A calm call of `drive` passes over the cleanups twice: what is pending
   afterwards exists, is in time and is killed if due at the second pass; what
   was pending before and seen in time by both passes is still pending, and
   killed if due at either; what either pass did not see or found late is not.
   */
  lemma DrivePasses(s: State, t: Tick, c: Cleanup)
    requires StartupProgress.Calm(t)
    ensures forall d :: d in Drive(s, t).0.cleanups ==>
              d.group in t.latePresent && t.lateNow < d.giveUpAt && (t.lateNow >= d.killAt ==> d.killed)
    ensures forall d :: d in FirstHalf(s, t).cleanups ==>
              d.group in t.present && t.now < d.giveUpAt && (t.now >= d.killAt ==> d.killed)
    ensures c in s.cleanups && c.group in t.present * t.latePresent && t.now < c.giveUpAt && t.lateNow < c.giveUpAt ==>
              Passed(c, t) in Drive(s, t).0.cleanups
  {
    hide ReapAll, ObserveAll, Kept, ReadyNow, SweepEvents;
    var a := ReapAll(s, t.waits);
    var half := FirstHalf(s, t);
    ReapAllKeepsCleanups(s, t.waits);
    Lifecycle.ObserveAllTableOnly(a, t.queued);
    Escalation.PassMeaning(a.cleanups, t.present, t.now);
    var late := ObserveAll(half, t.late);
    Lifecycle.ObserveAllTableOnly(half, t.late);
    ReapAllKeepsCleanups(late, t.lateWaits);
    Escalation.PassMeaning(ReapAll(late, t.lateWaits).cleanups, t.latePresent, t.lateNow);
    assert forall d :: d in s.cleanups ==> d in a.cleanups;
    assert forall d :: d in half.cleanups ==> d in ReapAll(late, t.lateWaits).cleanups;
  }

  // --------------------------------------------------- reasons of a failure

  /** What a recorded reason claims about the table. */
  ghost predicate Holds(plan: seq<Campd.Process>, procs: seq<Entry>, reason: Reason) {
    match reason
    case ServiceExited(name, status) =>
      exists j :: 0 <= j < |procs| && procs[j].name == name && procs[j].kind.Service?
                  && !procs[j].alive && procs[j].exitStatus == Some(status)
    case SpawnFailed(name) => |procs| < |plan| && plan[|procs|].name == name
    case ProbeTimedOut(name) =>
      procs != [] && procs[|procs| - 1].name == name && procs[|procs| - 1].kind.Service?
    case JobFailed(name, status) =>
      && procs != [] && procs[|procs| - 1].name == name && procs[|procs| - 1].kind.RunToCompletion?
      && procs[|procs| - 1].exitStatus == Some(status) && status != Exited(0)
    case JobLeftDescendants(name) =>
      && procs != [] && procs[|procs| - 1].name == name && procs[|procs| - 1].kind.RunToCompletion?
      && procs[|procs| - 1].exitStatus == Some(Exited(0)) && procs[|procs| - 1].residualGroup
    case JobTimedOut(name) =>
      procs != [] && procs[|procs| - 1].name == name && procs[|procs| - 1].kind.RunToCompletion?
  }

  ghost predicate Truthful(plan: seq<Campd.Process>, s: State) {
    && (s.failure.Some? ==> Holds(plan, s.procs, s.failure.value))
    && forall j :: 0 <= j < |s.procs| ==> (s.procs[j].alive <==> s.procs[j].exitStatus.None?)
  }

  /** A job's status counts as success exactly if the job exited with status 0. */
  lemma OnlyZeroSucceeds(status: Status)
    ensures status.ExitCode() == 0 <==> status == Exited(0)
  {
  }

  /** Aging entries without touching the failure keeps its reason true. */
  lemma AgingKeepsTruth(plan: seq<Campd.Process>, s: State, after: State)
    requires Truthful(plan, s) && after.failure == s.failure && |after.procs| == |s.procs|
    requires forall j :: 0 <= j < |s.procs| ==> Progress.Ages(s.procs[j], after.procs[j])
    requires forall j :: 0 <= j < |s.procs| ==> (after.procs[j].alive <==> after.procs[j].exitStatus.None?)
    ensures Truthful(plan, after)
  {
    if s.failure.Some? && s.failure.value.ServiceExited? {
      var r := s.failure.value;
      var j :| 0 <= j < |s.procs| && s.procs[j].name == r.name && s.procs[j].kind.Service?
               && !s.procs[j].alive && s.procs[j].exitStatus == Some(r.status);
      assert after.procs[j] == s.procs[j];
    }
  }

  lemma ReapKeepsTruth(plan: seq<Campd.Process>, s: State, w: Wait)
    requires Truthful(plan, s)
    ensures Truthful(plan, Reap(s, w))
  {
    if w.Child? {
      var i := FindLive(s.procs, w.pid);
      if i < |s.procs| {
        var buried := Buried(s, i, w.status, w.lingers);
        var aged := s.(procs := buried.procs);
        AgingKeepsTruth(plan, s, aged);
        if buried.failure != s.failure {
          assert buried.procs[i].exitStatus == Some(w.status);
        }
      }
    }
  }

  lemma {:induction false} ReapAllKeepsTruth(plan: seq<Campd.Process>, s: State, waits: seq<Wait>)
    requires Truthful(plan, s)
    ensures Truthful(plan, ReapAll(s, waits))
    decreases |waits|
  {
    if waits != [] {
      ReapAllKeepsTruth(plan, s, waits[..|waits| - 1]);
      ReapKeepsTruth(plan, ReapAll(s, waits[..|waits| - 1]), waits[|waits| - 1]);
    }
  }

  lemma {:induction false} ObserveAllKeepsTruth(plan: seq<Campd.Process>, s: State, os: seq<Observation>)
    requires Truthful(plan, s)
    ensures Truthful(plan, ObserveAll(s, os))
    decreases |os|
  {
    if os != [] {
      var init := ObserveAll(s, os[..|os| - 1]);
      ObserveAllKeepsTruth(plan, s, os[..|os| - 1]);
      AgingKeepsTruth(plan, init, Observe(init, os[|os| - 1]));
    }
  }

  lemma SameKeepsTruth(plan: seq<Campd.Process>, s: State, after: State)
    requires Truthful(plan, s) && after.procs == s.procs && after.failure == s.failure
    ensures Truthful(plan, after)
  {
  }

  lemma DriveKeepsTruth(plan: seq<Campd.Process>, s: State, t: Tick)
    requires Truthful(plan, s)
    ensures Truthful(plan, Drive(s, t).0)
  {
    hide Truthful, ReapAll, ObserveAll, ReadyNow;
    var a := ReapAll(s, t.waits);
    ReapAllKeepsTruth(plan, s, t.waits);
    if !t.waitFault {
      var b := ObserveAll(a, t.queued);
      ObserveAllKeepsTruth(plan, a, t.queued);
      var half := FirstHalf(s, t);
      SameKeepsTruth(plan, b, half);
      if t.signal.None? {
        var c := ObserveAll(half, t.late);
        ObserveAllKeepsTruth(plan, half, t.late);
        var d := ReapAll(c, t.lateWaits);
        ReapAllKeepsTruth(plan, c, t.lateWaits);
        SameKeepsTruth(plan, d, SecondHalf(half, t));
      }
    }
  }

  lemma NextKeepsTruth(plan: seq<Campd.Process>, s: State, i: nat, t: Tick)
    requires Truthful(plan, s) && i < |plan| && |s.procs| == i
    ensures Truthful(plan, AtNext(s, plan[i], i, t).s)
  {
    hide ReadyNow;
  }

  lemma GateNamesReason(s: State, j: nat, deadline: nat, t: Tick)
    requires j < |s.procs| && AtGate(s, j, deadline, t).s.failure.Some?
    ensures var e, r := s.procs[j], AtGate(s, j, deadline, t).s.failure.value;
            if s.failure.Some? then r == s.failure.value
            else if e.kind.Service? then r == ProbeTimedOut(e.name)
            else match e.exitStatus
              case None => r == JobTimedOut(e.name)
              case Some(status) =>
                if status != Exited(0) then r == JobFailed(e.name, status)
                else r == JobLeftDescendants(e.name) && e.residualGroup
  {
    hide ReadyNow, IsPending;
    if s.procs[j].exitStatus.Some? {
      OnlyZeroSucceeds(s.procs[j].exitStatus.value);
    }
  }

  lemma GateKeepsTruth(plan: seq<Campd.Process>, s: State, j: nat, deadline: nat, t: Tick)
    requires Truthful(plan, s) && |s.procs| == j + 1
    ensures Truthful(plan, AtGate(s, j, deadline, t).s)
  {
    hide AtGate;
    Progress.GateLeavesTable(s, j, deadline, t);
    if AtGate(s, j, deadline, t).s.failure.Some? {
      GateNamesReason(s, j, deadline, t);
    }
  }

  lemma HaltKeepsTruth(plan: seq<Campd.Process>, s: State, o: Outcome)
    requires Truthful(plan, s) && !o.Idle?
    ensures Truthful(plan, Halt(s, o).s)
  {
    if s.failure.Some? && s.failure.value.ServiceExited? {
      var r, after := s.failure.value, CancelAll(s.procs);
      var j :| 0 <= j < |s.procs| && s.procs[j].name == r.name && s.procs[j].kind.Service?
               && !s.procs[j].alive && s.procs[j].exitStatus == Some(r.status);
      assert after[j].exitStatus == Some(r.status) && !after[j].alive;
    }
  }

  /** Over every run the recorded reason of a failed startup is true of the table, and stays so. */
  lemma {:induction false} RunTruthful(plan: seq<Campd.Process>, ticks: seq<Tick>)
    ensures Truthful(plan, Steps(plan, ticks).s)
    decreases |ticks|
  {
    if ticks != [] {
      var init, t := ticks[..|ticks| - 1], ticks[|ticks| - 1];
      var m := Steps(plan, init);
      RunTruthful(plan, init);
      Lifecycle.RunReachable(plan, init);
      if !m.at.Stopped? && !m.at.Crashed? {
        StepKeepsTruth(plan, m, t);
      }
    }
  }

  lemma StepKeepsTruth(plan: seq<Campd.Process>, m: Machine, t: Tick)
    requires Truthful(plan, m.s) && Lifecycle.Reachable(plan, m) && !m.at.Stopped? && !m.at.Crashed?
    ensures Truthful(plan, Step(plan, m, t).s)
  {
    var (s, o) := Drive(m.s, t);
    DriveKeepsTruth(plan, m.s, t);
    Progress.DriveAdvances(m.s, t);
    hide Truthful, Drive, AtNext, AtGate, Halt, ReadyNow;
    if !o.Idle? {
      HaltKeepsTruth(plan, s, o);
    } else if m.at.Next? && m.at.i < |plan| {
      NextKeepsTruth(plan, s, m.at.i, t);
    } else if m.at.Gate? {
      GateKeepsTruth(plan, s, m.at.j, m.at.deadline, t);
    } else {
      SameKeepsTruth(plan, s, Step(plan, m, t).s);
    }
  }

  /** Nothing overwrites the first reason. */
  lemma FirstReasonStays(s: State, reason: Reason)
    ensures FailStartup(s, reason).failure == if s.failure.Some? then s.failure else Some(reason)
    ensures !FailStartup(s, reason).complete
  {
  }

  /** Which reason a calm step of initialization records, read off its answers. */
  ghost predicate RightReason(plan: seq<Campd.Process>, m: Machine, t: Tick, reason: Reason) {
    if !StartupProgress.ServicesSilent(m.s, t) then reason.ServiceExited?
    else match m.at
      case Next(i) => i < |plan| && reason == SpawnFailed(plan[i].name)
      case Gate(j, _) =>
        && j < |m.s.procs|
        && var e := m.s.procs[j];
           if e.kind.Service? then reason == ProbeTimedOut(e.name)
           else (
             match StartupProgress.Report(t, e.pid)
             case None => reason == JobTimedOut(e.name)
             case Some((status, _)) =>
               reason == if status != Exited(0) then JobFailed(e.name, status) else JobLeftDescendants(e.name))
      case _ => false
  }

  /** A calm step that fails startup records the right reason. */
  lemma StepNamesReason(plan: seq<Campd.Process>, m: Machine, t: Tick)
    requires Lifecycle.Reachable(plan, m) && Progress.DistinctPids(m.s.procs) && StartupProgress.Calm(t)
    requires (m.at.Next? || m.at.Gate?) && (m.at.Gate? ==> m.s.procs[m.at.j].alive)
    requires Step(plan, m, t).s.failure.Some?
    ensures RightReason(plan, m, t, Step(plan, m, t).s.failure.value)
  {
    var s := Drive(m.s, t).0;
    StartupProgress.DriveFails(m.s, t);
    Progress.DriveAdvances(m.s, t);
    DriveTells(m.s, t);
    hide StartupProgress.ServicesSilent, StartupProgress.Report, Lifecycle.Consistent, ReadyNow, IsPending;
    if m.at.Gate? {
      var j := m.at.j;
      StartupProgress.DriveMeaning(m.s, t, j);
      assert Progress.Ages(m.s.procs[j], s.procs[j]);
      hide Drive;
      GateNamesReason(s, j, m.at.deadline, t);
    } else {
      hide Drive;
    }
  }

  /** A failure met inside `drive` is that of a service. */
  lemma DriveTells(s: State, t: Tick)
    requires s.failure.None? && StartupProgress.Calm(t)
    ensures Drive(s, t).0.failure.Some? ==> Drive(s, t).0.failure.value.ServiceExited?
  {
    hide ReapAll, ObserveAll, ReadyNow;
    var a := ReapAll(s, t.waits);
    ReapAllTells(s, t.waits);
    Lifecycle.ObserveAllTableOnly(a, t.queued);
    var half := FirstHalf(s, t);
    Lifecycle.ObserveAllTableOnly(half, t.late);
    ReapAllTells(ObserveAll(half, t.late), t.lateWaits);
  }

  lemma {:induction false} ReapAllTells(s: State, waits: seq<Wait>)
    ensures var after := ReapAll(s, waits);
            after.failure == s.failure || (after.failure.Some? && after.failure.value.ServiceExited?)
    decreases |waits|
  {
    if waits != [] {
      ReapAllTells(s, waits[..|waits| - 1]);
    }
  }

  /**
   The three ways starting a declared process can go: no child, and nothing
   changes but the failure; a child whose probe thread does not start, which
   is killed, and never tracked; or a new live entry of that pid.
   */
  lemma SpawnOutcomes(s: State, p: Campd.Process, i: nat, t: Tick)
    requires s.failure.None?
    ensures var after := AtNext(s, p, i, t).s;
            match t.spawned
            case NotSpawned =>
              after.procs == s.procs && after.log == s.log && after.failure == Some(SpawnFailed(p.name))
            case Running(pid, probeThread) =>
              if p.probe.Some? && !probeThread then
                && after.procs == s.procs && after.log == s.log + [Aborted(pid)]
                && after.failure == Some(SpawnFailed(p.name))
              else
                && after.log == s.log + [Spawned(pid)] && after.failure.None?
                && |after.procs| == |s.procs| + 1 && after.procs[..|s.procs|] == s.procs
                && var e := after.procs[|s.procs|];
                   && e.pid == pid && e.alive && e.exitStatus.None? && !e.residualGroup && !e.cancelled
                   && Lifecycle.Matches(p, e)
  {
    hide ReadyNow;
  }

  // ------------------------------------------------------ probe threads

  /** A probe thread is told to stop exactly when its process exited or the run was stopped. */
  ghost predicate Cancelled(procs: seq<Entry>, stopped: bool) {
    forall j :: 0 <= j < |procs| ==> (procs[j].cancelled <==> procs[j].probe.Some? && (stopped || !procs[j].alive))
  }

  lemma {:induction false} ReapAllCancels(s: State, waits: seq<Wait>)
    requires Cancelled(s.procs, false)
    ensures Cancelled(ReapAll(s, waits).procs, false)
    decreases |waits|
  {
    if waits != [] {
      ReapAllCancels(s, waits[..|waits| - 1]);
    }
  }

  lemma {:induction false} ObserveAllCancels(s: State, os: seq<Observation>)
    requires Cancelled(s.procs, false)
    ensures Cancelled(ObserveAll(s, os).procs, false)
    decreases |os|
  {
    if os != [] {
      ObserveAllCancels(s, os[..|os| - 1]);
    }
  }

  lemma DriveCancels(s: State, t: Tick)
    requires Cancelled(s.procs, false)
    ensures Cancelled(Drive(s, t).0.procs, false)
  {
    hide Cancelled, ReapAll, ObserveAll, ReadyNow;
    ReapAllCancels(s, t.waits);
    ObserveAllCancels(ReapAll(s, t.waits), t.queued);
    var half := FirstHalf(s, t);
    ObserveAllCancels(half, t.late);
    ReapAllCancels(ObserveAll(half, t.late), t.lateWaits);
  }

  lemma FollowCancels(plan: seq<Campd.Process>, s: State, o: Outcome, at: Control, t: Tick)
    requires Cancelled(s.procs, false) && !at.Stopped?
    ensures var m := Follow(plan, s, o, at, t); Cancelled(m.s.procs, m.at.Stopped?)
  {
    hide ReadyNow, IsPending, AtGate;
    if at.Gate? {
      Progress.GateLeavesTable(s, at.j, at.deadline, t);
      NoGateStops(s, at.j, at.deadline, t);
    }
  }

  lemma NoGateStops(s: State, j: nat, deadline: nat, t: Tick)
    ensures !AtGate(s, j, deadline, t).at.Stopped?
  {
    hide ReadyNow, IsPending;
  }

  lemma {:induction false} RunCancels(plan: seq<Campd.Process>, ticks: seq<Tick>)
    ensures var m := Steps(plan, ticks); Cancelled(m.s.procs, m.at.Stopped?)
    decreases |ticks|
  {
    if ticks != [] {
      var init, t := ticks[..|ticks| - 1], ticks[|ticks| - 1];
      var m := Steps(plan, init);
      RunCancels(plan, init);
      if !m.at.Stopped? && !m.at.Crashed? {
        DriveCancels(m.s, t);
        FollowCancels(plan, Drive(m.s, t).0, Drive(m.s, t).1, m.at, t);
      }
    }
  }
}
