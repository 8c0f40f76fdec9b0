/** What one call of `drive` can and cannot change, whatever the environment answers. */
module Progress {
  import opened Supervision

  /** An entry keeps its identity, and an exited one never changes again. */
  predicate Ages(before: Entry, after: Entry) {
    && after.name == before.name && after.kind == before.kind && after.pid == before.pid
    && after.probe.Some? == before.probe.Some?
    && (!before.alive ==> after == before)
  }

  ghost predicate DistinctPids(procs: seq<Entry>) {
    forall i, j :: 0 <= i < j < |procs| ==> procs[i].pid != procs[j].pid
  }

  /** The order on states that every call of `drive` respects. */
  ghost predicate Advances(before: State, after: State) {
    && |after.procs| == |before.procs|
    && (forall j :: 0 <= j < |before.procs| ==> Ages(before.procs[j], after.procs[j]))
    && after.complete == before.complete
    && (before.failure.Some? || before.complete ==> after.failure == before.failure)
    && before.log <= after.log
  }

  lemma AdvancesTransitive(a: State, b: State, c: State)
    requires Advances(a, b) && Advances(b, c)
    ensures Advances(a, c)
  {
  }

  lemma ReapAdvances(s: State, w: Wait)
    ensures Advances(s, Reap(s, w))
  {
    if w.Child? {
      var i := FindLive(s.procs, w.pid);
      if i < |s.procs| {
        assert Advances(s, Buried(s, i, w.status, w.lingers));
      }
    }
  }

  lemma {:induction false} ReapAllAdvances(s: State, waits: seq<Wait>)
    ensures Advances(s, ReapAll(s, waits))
    decreases |waits|
  {
    if waits != [] {
      var init := ReapAll(s, waits[..|waits| - 1]);
      ReapAllAdvances(s, waits[..|waits| - 1]);
      ReapAdvances(init, waits[|waits| - 1]);
      AdvancesTransitive(s, init, ReapAll(s, waits));
    }
  }

  lemma {:induction false} ObserveAllAdvances(s: State, os: seq<Observation>)
    ensures Advances(s, ObserveAll(s, os))
    decreases |os|
  {
    if os != [] {
      var init := ObserveAll(s, os[..|os| - 1]);
      ObserveAllAdvances(s, os[..|os| - 1]);
      AdvancesTransitive(s, init, ObserveAll(s, os));
    }
  }

  lemma SweepAdvances(s: State, present: set<nat>, now: nat)
    ensures Advances(s, UpdateReady(Sweep(s, present, now)))
  {
  }

  lemma DriveAdvances(s: State, t: Tick)
    ensures Advances(s, Drive(s, t).0)
  {
    hide Advances;
    var a := ReapAll(s, t.waits);
    ReapAllAdvances(s, t.waits);
    if !t.waitFault {
      var b := ObserveAll(a, t.queued);
      ObserveAllAdvances(a, t.queued);
      AdvancesTransitive(s, a, b);
      var c := FirstHalf(s, t);
      SweepAdvances(b, t.present, t.now);
      AdvancesTransitive(s, b, c);
      if t.signal.None? {
        var d := ObserveAll(c, t.late);
        ObserveAllAdvances(c, t.late);
        AdvancesTransitive(s, c, d);
        var e := ReapAll(d, t.lateWaits);
        ReapAllAdvances(d, t.lateWaits);
        AdvancesTransitive(s, d, e);
        SweepAdvances(e, t.latePresent, t.lateNow);
        AdvancesTransitive(s, e, SecondHalf(c, t));
      }
    }
  }

  /** A gate decides on the table it finds, and at most schedules a cleanup of its job. */
  lemma GateLeavesTable(s: State, j: nat, deadline: nat, t: Tick)
    ensures var after := AtGate(s, j, deadline, t).s;
            && after.procs == s.procs
            && (s.failure.Some? ==> after.failure == s.failure)
            && ((after.log == s.log && after.cleanups == s.cleanups)
                || (j < |s.procs| && s.procs[j].kind.RunToCompletion?
                    && var scheduled := ScheduleCleanup(s, s.procs[j].pid, t.gatePresent, t.gateTermAt);
                       after.log == scheduled.log && after.cleanups == scheduled.cleanups))
  {
    hide ReadyNow, IsPending, ScheduleCleanup;
    if j < |s.procs| {
      ScheduleKeepsTable(s, s.procs[j].pid, t.gatePresent, t.gateTermAt);
    }
  }

  lemma ScheduleKeepsTable(s: State, group: nat, present: bool, now: nat)
    ensures var after := ScheduleCleanup(s, group, present, now);
            after == s.(log := after.log, cleanups := after.cleanups)
  {
  }

  /** Cancelling probes does not change which groups are left. */
  lemma CancelledGroups(s: State)
    ensures Groups(s.(procs := CancelAll(s.procs))) == Groups(s)
  {
    var after := CancelAll(s.procs);
    forall e | e in s.procs && (e.alive || e.residualGroup)
      ensures e.pid in (set e' | e' in after && (e'.alive || e'.residualGroup) :: e'.pid)
    {
      var j :| 0 <= j < |s.procs| && s.procs[j] == e;
      assert after[j] in after;
    }
    forall e' | e' in after && (e'.alive || e'.residualGroup)
      ensures e'.pid in (set e | e in s.procs && (e.alive || e.residualGroup) :: e.pid)
    {
      var j :| 0 <= j < |after| && after[j] == e';
      assert s.procs[j] in s.procs;
    }
  }
}
