/** The supervisor object of campd, updated in place, and the loop that drives it. */
module Runtime {
  import opened Wrappers
  import opened Supervision
  import Campd
  import Probes
  import Progress
  import Teardown

  datatype WaitOutcome =
    | Completed
    | Failed(reason: Reason)
    | Signal(signal: nat)
    | Fault
    | Window

  class Supervisor {
    var ready: bool
    var processes: seq<Entry>
    var cleanups: seq<Cleanup>
    var initializationComplete: bool
    var startupFailure: Option<Reason>
    ghost var log: seq<Event>

    ghost function Now(): State
      reads this
    {
      State(ready, processes, cleanups, initializationComplete, startupFailure, log)
    }

    constructor ()
      ensures Now() == START.s
    {
      ready, processes, cleanups, initializationComplete, startupFailure := false, [], [], false, None;
      log := [];
    }

    method UpdateReady()
      modifies this`ready
      ensures Now() == Supervision.UpdateReady(old(Now()))
    {
      var servicesReady := true;
      for k := 0 to |processes|
        invariant servicesReady == ServicesReady(processes[..k])
      {
        var e := processes[k];
        assert processes[..k + 1] == processes[..k] + [e];
        if e.kind.Service? && !(e.alive && (e.probe.Some? ==> e.probe.value.health.Ready?)) {
          servicesReady := false;
        }
      }
      assert processes[..|processes|] == processes;
      ready := initializationComplete && startupFailure.None? && servicesReady;
    }

    method FailStartup(reason: Reason)
      modifies this
      ensures Now() == Supervision.FailStartup(old(Now()), reason)
    {
      if startupFailure.None? {
        startupFailure := Some(reason);
      }
      initializationComplete := false;
      UpdateReady();
    }

    method ScheduleCleanup(group: nat, present: bool, now: nat)
      modifies this`cleanups, this`log
      ensures Now() == Supervision.ScheduleCleanup(old(Now()), group, present, now)
    {
      var pending := exists c :: c in cleanups && c.group == group;
      if !present || pending {
        return;
      }
      log := log + [Terminated(group, now)];
      cleanups := cleanups + [Cleanup(group, now + SHUTDOWN_GRACE, now + SHUTDOWN_GRACE + KILL_GRACE, false)];
    }

    /** `iter().position(...)` over the table. */
    method Position(pid: nat) returns (index: nat)
      ensures index == FindLive(processes, pid)
    {
      index := 0;
      while index < |processes| && !(processes[index].pid == pid && processes[index].alive)
        invariant index <= |processes|
        invariant forall j :: 0 <= j < index ==> !(processes[j].pid == pid && processes[j].alive)
      {
        index := index + 1;
      }
      var found := FindLive(processes, pid);
      assert !(found < index) && !(index < found);
    }

    method ReapAvailable(waits: seq<Wait>)
      modifies this`processes, this`startupFailure, this`cleanups, this`log
      ensures Now() == ReapAll(old(Now()), waits)
    {
      for k := 0 to |waits|
        invariant Now() == ReapAll(old(Now()), waits[..k])
      {
        assert waits[..k + 1][..k] == waits[..k];
        if waits[k].Child? {
          ReapChild(waits[k]);
        }
      }
      assert waits[..|waits|] == waits;
    }

    /** One reaped child. */
    method ReapChild(child: Wait)
      requires child.Child?
      modifies this`processes, this`startupFailure, this`cleanups, this`log
      ensures Now() == Reap(old(Now()), child)
    {
      var index := Position(child.pid);
      if index == |processes| {
        return;
      }
      var process := processes[index].(
        alive := false, exitStatus := Some(child.status), residualGroup := child.lingers);
      if process.probe.Some? {
        process := process.(cancelled := true);
      }
      processes := processes[index := process];
      if process.kind.Service? && !initializationComplete && startupFailure.None? {
        startupFailure := Some(ServiceExited(process.name, child.status));
      }
      if child.lingers {
        ScheduleCleanup(child.pid, child.stillLingers, child.now);
      }
    }

    method ApplyProbeEvent(event: Observation)
      modifies this`processes
      ensures Now() == Observe(old(Now()), event)
    {
      if event.index >= |processes| {
        return;
      }
      var process := processes[event.index];
      if !process.alive || process.probe.None? {
        return;
      }
      var gauge := process.probe.value;
      var probe := new Probes.ProbeState.From(gauge);
      var change := probe.Observe(event.success);
      var after := probe.Read();
      processes := processes[event.index := process.(probe := Some(after))];
    }

    method DrainProbeEvents(events: seq<Observation>)
      modifies this`processes
      ensures Now() == ObserveAll(old(Now()), events)
    {
      for k := 0 to |events|
        invariant Now() == ObserveAll(old(Now()), events[..k])
      {
        assert events[..k + 1][..k] == events[..k];
        ApplyProbeEvent(events[k]);
      }
      assert events[..|events|] == events;
    }

    /** `retain_mut` over the pending cleanups. */
    method ProcessCleanups(present: set<nat>, now: nat)
      modifies this`cleanups, this`log
      ensures Now() == Sweep(old(Now()), present, now)
    {
      var retained: seq<Cleanup> := [];
      for k := 0 to |cleanups|
        invariant cleanups == old(cleanups)
        invariant retained == Kept(cleanups[..k], present, now)
        invariant log == old(log) + SweepEvents(cleanups[..k], present, now)
      {
        assert cleanups[..k + 1][..k] == cleanups[..k];
        var cleanup := cleanups[k];
        if cleanup.group !in present {
          log := log + [Released(cleanup.group, now, false)];
        } else {
          if !cleanup.killed && now >= cleanup.killAt {
            log := log + [Killed(cleanup.group, now)];
            cleanup := cleanup.(killed := true);
          }
          if now >= cleanup.giveUpAt {
            log := log + [Released(cleanup.group, now, true)];
          } else {
            retained := retained + [cleanup];
          }
        }
      }
      assert cleanups[..|cleanups|] == cleanups;
      cleanups := retained;
    }

    method Drive(t: Tick) returns (outcome: Outcome)
      modifies this
      ensures (Now(), outcome) == Supervision.Drive(old(Now()), t)
    {
      ReapAvailable(t.waits);
      if t.waitFault {
        return Broken;
      }
      DrainProbeEvents(t.queued);
      ProcessCleanups(t.present, t.now);
      UpdateReady();
      if t.signal.Some? {
        return Interrupted(t.signal.value);
      }
      DrainProbeEvents(t.late);
      ReapAvailable(t.lateWaits);
      if t.lateFault {
        return Broken;
      }
      ProcessCleanups(t.latePresent, t.lateNow);
      UpdateReady();
      return if t.lateSignal.Some? then Interrupted(t.lateSignal.value) else Idle;
    }

    method Spawn(p: Campd.Process, answer: SpawnAnswer) returns (started: bool)
      modifies this
      ensures Now() == Supervision.Spawn(old(Now()), p, answer)
      ensures started == Starts(p, answer)
    {
      if answer.NotSpawned? {
        return false;
      }
      var probe := None;
      if p.probe.Some? {
        probe := Some(Probes.Fresh(p.probe.value.successThreshold, p.probe.value.failureThreshold));
        if !answer.probeThread {
          log := log + [Aborted(answer.pid)];
          return false;
        }
      }
      processes := processes + [Entry(p.name, p.kind, answer.pid, true, None, false, probe, false)];
      log := log + [Spawned(answer.pid)];
      UpdateReady();
      return true;
    }

    // --------------------------------------------------------- the loops

    /** A call of `drive` as the next step of a run. */
    method Turn(ghost plan: seq<Campd.Process>, ghost m: Machine, t: Tick) returns (outcome: Outcome)
      requires m.s == Now() && !m.at.Stopped? && !m.at.Crashed?
      modifies this
      ensures Step(plan, m, t) == Follow(plan, Now(), outcome, m.at, t)
      ensures |processes| == old(|processes|)
      ensures forall j :: 0 <= j < |processes| ==> processes[j].kind == old(processes)[j].kind
    {
      Progress.DriveAdvances(Now(), t);
      outcome := Drive(t);
    }

    /**
     What a wait tells its caller about the machine `m` the run is in by now:
     `next` is the declaration to go on with, `at` where the answers ran out.
     */
    ghost predicate Left(m: Machine, next: nat, at: Control, outcome: WaitOutcome)
      reads this
    {
      match outcome
      case Completed => startupFailure.None? && m == Machine(Now(), Next(next))
      case Failed(reason) => m == Abandon(Now(), reason)
      case Signal(signal) => m == Halt(Now(), Interrupted(signal))
      case Fault => m == Machine(Now(), Crashed)
      case Window => m == Machine(Now(), at)
    }

    /** One turn of the loop of `wait_for_service`. */
    method ServiceTurn(ghost plan: seq<Campd.Process>, index: nat, deadline: nat, t: Tick)
      returns (outcome: WaitOutcome)
      requires index < |processes| && processes[index].kind.Service?
      modifies this
      ensures Left(Step(plan, Machine(old(Now()), Gate(index, deadline)), t), index + 1, Gate(index, deadline), outcome)
      ensures |processes| == old(|processes|) && processes[index].kind.Service?
    {
      var drive := Turn(plan, Machine(Now(), Gate(index, deadline)), t);
      if drive.Interrupted? {
        return Signal(drive.signal);
      }
      if drive.Broken? {
        return Fault;
      }
      if startupFailure.Some? {
        return Failed(startupFailure.value);
      }
      var process := processes[index];
      if process.probe.Some? && process.probe.value.health.Ready? {
        return Completed;
      }
      if t.gateNow >= deadline {
        return Failed(ProbeTimedOut(process.name));
      }
      return Window;
    }

    /** One turn of the loop of `wait_for_job`. */
    method JobTurn(ghost plan: seq<Campd.Process>, index: nat, deadline: nat, t: Tick)
      returns (outcome: WaitOutcome)
      requires index < |processes| && processes[index].kind.RunToCompletion?
      modifies this
      ensures Left(Step(plan, Machine(old(Now()), Gate(index, deadline)), t), index + 1, Gate(index, deadline), outcome)
      ensures |processes| == old(|processes|) && processes[index].kind.RunToCompletion?
    {
      var drive := Turn(plan, Machine(Now(), Gate(index, deadline)), t);
      if drive.Interrupted? {
        return Signal(drive.signal);
      }
      if drive.Broken? {
        return Fault;
      }
      var process := processes[index];
      if startupFailure.Some? {
        if process.alive {
          ScheduleCleanup(process.pid, t.gatePresent, t.gateTermAt);
        }
        return Failed(startupFailure.value);
      }
      if process.exitStatus.Some? {
        var status := process.exitStatus.value;
        if status.ExitCode() != 0 {
          return Failed(JobFailed(process.name, status));
        }
        if process.residualGroup {
          return Failed(JobLeftDescendants(process.name));
        }
        return Completed;
      }
      if t.gateNow >= deadline {
        ScheduleCleanup(process.pid, t.gatePresent, t.gateTermAt);
        return Failed(JobTimedOut(process.name));
      }
      return Window;
    }

    /** `wait_for_service`: turn until something is decided or the answers run out. */
    method WaitForService(plan: seq<Campd.Process>, ticks: seq<Tick>, start: nat, index: nat, deadline: nat)
      returns (outcome: WaitOutcome, k: nat)
      requires start <= |ticks| && Machine(Now(), Gate(index, deadline)) == Steps(plan, ticks[..start])
      requires index < |processes| && processes[index].kind.Service?
      modifies this
      ensures start <= k <= |ticks| && (outcome.Window? ==> k == |ticks|)
      ensures Left(Steps(plan, ticks[..k]), index + 1, Gate(index, deadline), outcome)
      ensures |processes| == old(|processes|)
    {
      hide Step, Abandon, Halt;
      k := start;
      while k < |ticks|
        invariant start <= k <= |ticks| && |processes| == old(|processes|) && processes[index].kind.Service?
        invariant Machine(Now(), Gate(index, deadline)) == Steps(plan, ticks[..k])
      {
        StepsSnoc(plan, ticks, k);
        outcome := ServiceTurn(plan, index, deadline, ticks[k]);
        k := k + 1;
        if !outcome.Window? {
          return;
        }
      }
      return Window, k;
    }

    /** `wait_for_job`: turn until something is decided or the answers run out. */
    method WaitForJob(plan: seq<Campd.Process>, ticks: seq<Tick>, start: nat, index: nat, deadline: nat)
      returns (outcome: WaitOutcome, k: nat)
      requires start <= |ticks| && Machine(Now(), Gate(index, deadline)) == Steps(plan, ticks[..start])
      requires index < |processes| && processes[index].kind.RunToCompletion?
      modifies this
      ensures start <= k <= |ticks| && (outcome.Window? ==> k == |ticks|)
      ensures Left(Steps(plan, ticks[..k]), index + 1, Gate(index, deadline), outcome)
      ensures |processes| == old(|processes|)
    {
      hide Step, Abandon, Halt;
      k := start;
      while k < |ticks|
        invariant start <= k <= |ticks| && |processes| == old(|processes|) && processes[index].kind.RunToCompletion?
        invariant Machine(Now(), Gate(index, deadline)) == Steps(plan, ticks[..k])
      {
        StepsSnoc(plan, ticks, k);
        outcome := JobTurn(plan, index, deadline, ticks[k]);
        k := k + 1;
        if !outcome.Window? {
          return;
        }
      }
      return Window, k;
    }

    /** The head of the loop over the declarations, up to the gate it opens. */
    method Start(ghost plan: seq<Campd.Process>, p: Campd.Process, i: nat, t: Tick)
      returns (outcome: WaitOutcome, at: Control)
      requires i < |plan| && plan[i] == p && |processes| == i
      modifies this
      ensures Left(Step(plan, Machine(old(Now()), Next(i)), t), i + 1, at, outcome)
      ensures outcome.Completed? || outcome.Window? ==> |processes| == i + 1 && processes[i].kind == p.kind
      ensures outcome.Window? ==> at == Gate(i, t.gateNow + Campd.StartupCost(p))
    {
      at := Next(i);
      var drive := Turn(plan, Machine(Now(), Next(i)), t);
      if drive.Interrupted? {
        return Signal(drive.signal), at;
      }
      if drive.Broken? {
        return Fault, at;
      }
      if startupFailure.Some? {
        return Failed(startupFailure.value), at;
      }
      var started := Spawn(p, t.spawned);
      if !started {
        return Failed(SpawnFailed(p.name)), at;
      }
      at := Gated(p, i, t.gateNow);
      outcome := if p.kind.Service? && p.probe.None? then Completed else Window;
    }

    /** One declaration: spawn it and pass its gate. */
    method Launch(plan: seq<Campd.Process>, ticks: seq<Tick>, start: nat, i: nat)
      returns (outcome: WaitOutcome, k: nat, at: Control)
      requires start <= |ticks| && i < |plan| && |processes| == i
      requires Machine(Now(), Next(i)) == Steps(plan, ticks[..start])
      modifies this
      ensures start <= k <= |ticks| && (outcome.Window? ==> k == |ticks|)
      ensures Left(Steps(plan, ticks[..k]), i + 1, at, outcome)
      ensures outcome.Window? ==> at.Next? || at.Gate?
      ensures outcome.Completed? ==> |processes| == i + 1
    {
      if start == |ticks| {
        return Window, start, Next(i);
      }
      StepsSnoc(plan, ticks, start);
      outcome, at := Start(plan, plan[i], i, ticks[start]);
      k := start + 1;
      if outcome.Window? {
        match plan[i].kind {
          case Service =>
            outcome, k := WaitForService(plan, ticks, k, i, at.deadline);
          case RunToCompletion =>
            outcome, k := WaitForJob(plan, ticks, k, i, at.deadline);
        }
      }
    }

    /** `shutdown`. */
    method Shutdown(signal: nat, polls: nat -> Teardown.Poll)
      returns (code: nat, groups: set<nat>, report: Teardown.Report)
      modifies this
      ensures Now() == Supervision.Shutdown(old(Now()))
      ensures code == 128 + signal && groups == Groups(old(Now()))
      ensures Teardown.TornDown(groups, signal, polls, report)
    {
      Progress.CancelledGroups(Now());
      ready := false;
      processes := CancelAll(processes);
      groups := (set e | e in processes && (e.alive || e.residualGroup) :: e.pid) + (set c | c in cleanups :: c.group);
      report := Teardown.TerminateGroups(groups, signal, polls);
      code := 128 + signal;
    }

    /** `run`, until the answers of the environment run out. */
    method Run(plan: seq<Campd.Process>, ticks: seq<Tick>, polls: nat -> Teardown.Poll)
      returns (at: Control, report: Option<Teardown.Report>)
      requires Now() == START.s
      modifies this
      ensures Machine(Now(), at) == Steps(plan, ticks) && Reported(at, polls, report)
    {
      hide Teardown.TornDown, Step;
      var k, i := 0, 0;
      while i < |plan|
        invariant k <= |ticks| && i <= |plan| && |processes| == i
        invariant Machine(Now(), Next(i)) == Steps(plan, ticks[..k])
        invariant startupFailure.None?
      {
        var outcome, next, control := Launch(plan, ticks, k, i);
        k := next;
        match outcome {
          case Completed =>
            i := i + 1;
          case Failed(reason) =>
            FailStartup(reason);
            UpdateReady();
            at, report := Supervise(plan, ticks, k, polls);
            return;
          case Signal(signal) =>
            at, report := Stop(plan, ticks, k, signal, polls);
            return;
          case Fault =>
            HaltedStays(plan, ticks, k);
            return Crashed, None;
          case Window =>
            assert ticks[..k] == ticks;
            return control, None;
        }
      }
      if k == |ticks| {
        assert ticks[..k] == ticks;
        return Next(i), None;
      }
      at, report := Complete(plan, ticks, k, polls);
    }

    /** The end of initialization, when no startup failure was met. */
    method Complete(plan: seq<Campd.Process>, ticks: seq<Tick>, start: nat, polls: nat -> Teardown.Poll)
      returns (at: Control, report: Option<Teardown.Report>)
      requires start < |ticks| && Machine(Now(), Next(|plan|)) == Steps(plan, ticks[..start])
      modifies this
      ensures Machine(Now(), at) == Steps(plan, ticks) && Reported(at, polls, report)
    {
      hide Teardown.TornDown;
      StepsSnoc(plan, ticks, start);
      var drive := Turn(plan, Machine(Now(), Next(|plan|)), ticks[start]);
      if drive.Interrupted? {
        at, report := Stop(plan, ticks, start + 1, drive.signal, polls);
        return;
      }
      if drive.Broken? {
        HaltedStays(plan, ticks, start + 1);
        return Crashed, None;
      }
      if startupFailure.None? {
        initializationComplete := true;
      }
      UpdateReady();
      at, report := Supervise(plan, ticks, start + 1, polls);
    }

    /** One turn of the loop of `supervise`. */
    method SuperviseTurn(ghost plan: seq<Campd.Process>, t: Tick) returns (outcome: WaitOutcome)
      modifies this
      ensures Left(Step(plan, Machine(old(Now()), Supervising), t), 0, Supervising, outcome)
      ensures outcome.Window? || outcome.Signal? || outcome.Fault?
    {
      var drive := Turn(plan, Machine(Now(), Supervising), t);
      match drive {
        case Idle => return Window;
        case Interrupted(signal) => return Signal(signal);
        case Broken => return Fault;
      }
    }

    /** `supervise`. */
    method Supervise(plan: seq<Campd.Process>, ticks: seq<Tick>, start: nat, polls: nat -> Teardown.Poll)
      returns (at: Control, report: Option<Teardown.Report>)
      requires start <= |ticks| && Machine(Now(), Supervising) == Steps(plan, ticks[..start])
      modifies this
      ensures Machine(Now(), at) == Steps(plan, ticks) && Reported(at, polls, report)
    {
      hide Step, Abandon;
      var k := start;
      while k < |ticks|
        invariant k <= |ticks| && Machine(Now(), Supervising) == Steps(plan, ticks[..k])
      {
        StepsSnoc(plan, ticks, k);
        var outcome := SuperviseTurn(plan, ticks[k]);
        k := k + 1;
        if outcome.Signal? {
          at, report := Stop(plan, ticks, k, outcome.signal, polls);
          return;
        }
        if outcome.Fault? {
          HaltedStays(plan, ticks, k);
          return Crashed, None;
        }
      }
      assert ticks[..k] == ticks;
      return Supervising, None;
    }

    /** A received signal ends the run. */
    method Stop(plan: seq<Campd.Process>, ticks: seq<Tick>, k: nat, signal: nat, polls: nat -> Teardown.Poll)
      returns (at: Control, report: Option<Teardown.Report>)
      requires k <= |ticks| && Steps(plan, ticks[..k]) == Halt(Now(), Interrupted(signal))
      modifies this
      ensures Machine(Now(), at) == Steps(plan, ticks) && Reported(at, polls, report)
    {
      HaltedStays(plan, ticks, k);
      var code, groups, sent := Shutdown(signal, polls);
      return Stopped(code, groups), Some(sent);
    }
  }

  /** A run that stopped on a signal passed it on to the groups it stopped with. */
  ghost predicate Reported(at: Control, polls: nat -> Teardown.Poll, report: Option<Teardown.Report>) {
    at.Stopped? ==>
      at.code >= 128 && report.Some? && Teardown.TornDown(at.groups, at.code - 128, polls, report.value)
  }

  lemma StepsSnoc(plan: seq<Campd.Process>, ticks: seq<Tick>, k: nat)
    requires k < |ticks|
    ensures Steps(plan, ticks[..k + 1]) == Step(plan, Steps(plan, ticks[..k]), ticks[k])
  {
    assert ticks[..k + 1][..k] == ticks[..k];
  }

  /** Nothing happens after a shutdown or a fault. */
  lemma {:induction false} HaltedStays(plan: seq<Campd.Process>, ticks: seq<Tick>, k: nat)
    requires k <= |ticks|
    requires var at := Steps(plan, ticks[..k]).at; at.Stopped? || at.Crashed?
    ensures Steps(plan, ticks) == Steps(plan, ticks[..k])
    decreases |ticks|
  {
    if k == |ticks| {
      assert ticks[..k] == ticks;
    } else {
      var init := ticks[..|ticks| - 1];
      assert init[..k] == ticks[..k];
      HaltedStays(plan, init, k);
    }
  }
}
