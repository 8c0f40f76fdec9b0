/**
 campd's supervisor: the process table, the cleanups of leftover process
 groups, the startup gates and the readiness bit. Every answer of the
 operating system (reaped children, existing groups, probe results, signals,
 the clock) is an input, so a run is a sequence of such answers.
 Times are in milliseconds.
 */
module Supervision {
  import opened Wrappers
  import Campd
  import Probes

  const SHUTDOWN_GRACE: nat := 5_000
  const KILL_GRACE: nat := 1_000
  const POLL_INTERVAL: nat := 50

  // ------------------------------------------------------------- entities

  /** A wait status: `WIFEXITED`, `WIFSIGNALED`, or neither. */
  datatype Status = Exited(code: nat) | Signaled(signal: nat) | Unknown
  {
    function ExitCode(): nat {
      match this
      case Exited(code) => code
      case Signaled(signal) => 128 + signal
      case Unknown => 1
    }
  }

  datatype Entry = Entry(
    name: string,
    kind: Campd.Kind,
    pid: nat,
    alive: bool,
    exitStatus: Option<Status>,
    residualGroup: bool,
    probe: Option<Probes.Gauge>,
    cancelled: bool)

  datatype Cleanup = Cleanup(group: nat, killAt: nat, giveUpAt: nat, killed: bool)

  datatype Reason =
    | ServiceExited(name: string, status: Status)
    | SpawnFailed(name: string)
    | ProbeTimedOut(name: string)
    | JobFailed(name: string, status: Status)
    | JobLeftDescendants(name: string)
    | JobTimedOut(name: string)

  /** What the supervisor did to process groups, and when. */
  datatype Event =
    | Spawned(group: nat)
    | Aborted(group: nat)
    | Terminated(group: nat, at: nat)
    | Killed(group: nat, at: nat)
    | Released(group: nat, at: nat, gaveUp: bool)

  datatype State = State(
    ready: bool,
    procs: seq<Entry>,
    cleanups: seq<Cleanup>,
    complete: bool,
    failure: Option<Reason>,
    log: seq<Event>)

  // ------------------------------------------- answers of the environment

  /**
   One answer of `waitpid`: interrupted, or a child with what the two group
   checks that may follow would see, and the clock of a scheduled cleanup.
   */
  datatype Wait = Retry | Child(pid: nat, status: Status, lingers: bool, stillLingers: bool, now: nat)

  datatype Observation = Observation(index: nat, success: bool)

  /** `command.spawn` failed, or gave a pid whose probe thread did or did not start. */
  datatype SpawnAnswer = NotSpawned | Running(pid: nat, probeThread: bool)

  /**
   Everything asked of the environment by one call of `drive` and by the code
   between it and the next: two rounds of reaping, queued probe results, the
   groups that exist and the clock at each cleanup pass, the received signal,
   then the gate's clock and the answer to a spawn.
   */
  datatype Tick = Tick(
    waits: seq<Wait>, waitFault: bool, queued: seq<Observation>, present: set<nat>, now: nat, signal: Option<nat>,
    late: seq<Observation>, lateWaits: seq<Wait>, lateFault: bool, latePresent: set<nat>, lateNow: nat,
    lateSignal: Option<nat>,
    gateNow: nat, gatePresent: bool, gateTermAt: nat, spawned: SpawnAnswer)

  datatype Outcome = Idle | Interrupted(signal: nat) | Broken

  // ------------------------------------------------------ single updates

  /** Every service is alive and, where probed, ready. */
  predicate ServicesReady(procs: seq<Entry>) {
    forall e :: e in procs && e.kind.Service? ==> e.alive && (e.probe.Some? ==> e.probe.value.health.Ready?)
  }

  predicate ReadyNow(s: State) {
    s.complete && s.failure.None? && ServicesReady(s.procs)
  }

  function UpdateReady(s: State): State {
    s.(ready := ReadyNow(s))
  }

  function FailStartup(s: State, reason: Reason): State {
    UpdateReady(s.(failure := if s.failure.None? then Some(reason) else s.failure, complete := false))
  }

  predicate IsPending(cleanups: seq<Cleanup>, group: nat) {
    exists c :: c in cleanups && c.group == group
  }

  function ScheduleCleanup(s: State, group: nat, present: bool, now: nat): State {
    if !present || IsPending(s.cleanups, group) then s
    else s.(
      log := s.log + [Terminated(group, now)],
      cleanups := s.cleanups + [Cleanup(group, now + SHUTDOWN_GRACE, now + SHUTDOWN_GRACE + KILL_GRACE, false)])
  }

  /** The first live entry of a pid, or the length of the table. */
  function FindLive(procs: seq<Entry>, pid: nat): (i: nat)
    ensures i <= |procs|
    ensures i < |procs| ==> procs[i].pid == pid && procs[i].alive
    ensures forall j :: 0 <= j < i ==> !(procs[j].pid == pid && procs[j].alive)
  {
    if procs == [] || (procs[0].pid == pid && procs[0].alive) then 0
    else 1 + FindLive(procs[1..], pid)
  }

  function Exit(e: Entry, status: Status, lingers: bool): Entry {
    e.(alive := false, exitStatus := Some(status), residualGroup := lingers, cancelled := e.probe.Some? || e.cancelled)
  }

  /** The table and the failure after entry `i` exited. */
  function Buried(s: State, i: nat, status: Status, lingers: bool): State
    requires i < |s.procs|
  {
    var e := s.procs[i];
    s.(procs := s.procs[i := Exit(e, status, lingers)],
       failure := if e.kind.Service? && !s.complete && s.failure.None? then Some(ServiceExited(e.name, status))
                  else s.failure)
  }

  function Reap(s: State, w: Wait): State {
    match w
    case Retry => s
    case Child(pid, status, lingers, stillLingers, now) =>
      var i := FindLive(s.procs, pid);
      if i == |s.procs| then s
      else if lingers then ScheduleCleanup(Buried(s, i, status, lingers), pid, stillLingers, now)
      else Buried(s, i, status, lingers)
  }

  function ReapAll(s: State, waits: seq<Wait>): State {
    if waits == [] then s else Reap(ReapAll(s, waits[..|waits| - 1]), waits[|waits| - 1])
  }

  function Observe(s: State, o: Observation): State {
    if o.index >= |s.procs| then s
    else
      var e := s.procs[o.index];
      if !e.alive || e.probe.None? then s
      else s.(procs := s.procs[o.index := e.(probe := Some(Probes.Observed(e.probe.value, o.success)))])
  }

  function ObserveAll(s: State, os: seq<Observation>): State {
    if os == [] then s else Observe(ObserveAll(s, os[..|os| - 1]), os[|os| - 1])
  }

  // -------------------------------------------------------- cleanup pass

  predicate KillsNow(c: Cleanup, now: nat) {
    !c.killed && now >= c.killAt
  }

  function SweepOne(c: Cleanup, present: set<nat>, now: nat): (seq<Cleanup>, seq<Event>) {
    if c.group !in present then ([], [Released(c.group, now, false)])
    else
      var killing := if KillsNow(c, now) then [Killed(c.group, now)] else [];
      if now >= c.giveUpAt then ([], killing + [Released(c.group, now, true)])
      else ([c.(killed := c.killed || KillsNow(c, now))], killing)
  }

  function Kept(cs: seq<Cleanup>, present: set<nat>, now: nat): seq<Cleanup> {
    if cs == [] then []
    else Kept(cs[..|cs| - 1], present, now) + SweepOne(cs[|cs| - 1], present, now).0
  }

  function SweepEvents(cs: seq<Cleanup>, present: set<nat>, now: nat): seq<Event> {
    if cs == [] then []
    else SweepEvents(cs[..|cs| - 1], present, now) + SweepOne(cs[|cs| - 1], present, now).1
  }

  function Sweep(s: State, present: set<nat>, now: nat): State {
    s.(cleanups := Kept(s.cleanups, present, now), log := s.log + SweepEvents(s.cleanups, present, now))
  }

  // --------------------------------------------------------------- drive

  /** The first half of `drive`, up to its check for a signal. */
  function FirstHalf(s: State, t: Tick): State {
    UpdateReady(Sweep(ObserveAll(ReapAll(s, t.waits), t.queued), t.present, t.now))
  }

  function SecondHalf(s: State, t: Tick): State {
    UpdateReady(Sweep(ReapAll(ObserveAll(s, t.late), t.lateWaits), t.latePresent, t.lateNow))
  }

  function Drive(s: State, t: Tick): (State, Outcome) {
    if t.waitFault then (ReapAll(s, t.waits), Broken)
    else
      var half := FirstHalf(s, t);
      if t.signal.Some? then (half, Interrupted(t.signal.value))
      else if t.lateFault then (ReapAll(ObserveAll(half, t.late), t.lateWaits), Broken)
      else (SecondHalf(half, t), if t.lateSignal.Some? then Interrupted(t.lateSignal.value) else Idle)
  }

  // --------------------------------------------------------------- spawn

  function NewEntry(p: Campd.Process, pid: nat): Entry {
    Entry(p.name, p.kind, pid, true, None, false,
          if p.probe.Some? then Some(Probes.Fresh(p.probe.value.successThreshold, p.probe.value.failureThreshold))
          else None,
          false)
  }

  predicate Starts(p: Campd.Process, answer: SpawnAnswer) {
    answer.Running? && (p.probe.Some? ==> answer.probeThread)
  }

  function Spawn(s: State, p: Campd.Process, answer: SpawnAnswer): State {
    if answer.NotSpawned? then s
    else if !Starts(p, answer) then s.(log := s.log + [Aborted(answer.pid)])
    else UpdateReady(s.(procs := s.procs + [NewEntry(p, answer.pid)], log := s.log + [Spawned(answer.pid)]))
  }

  // ------------------------------------------------------------ whole run

  /** Where `run` is: about to handle a declaration, inside its gate, or past them. */
  datatype Control =
    | Next(i: nat)
    | Gate(j: nat, deadline: nat)
    | Supervising
    | Stopped(code: nat, groups: set<nat>)
    | Crashed

  datatype Machine = Machine(s: State, at: Control)

  const START := Machine(State(false, [], [], false, None, []), Next(0))

  /** The groups `shutdown` terminates. */
  function Groups(s: State): set<nat> {
    (set e | e in s.procs && (e.alive || e.residualGroup) :: e.pid) + (set c | c in s.cleanups :: c.group)
  }

  function CancelAll(procs: seq<Entry>): seq<Entry> {
    seq(|procs|, i requires 0 <= i < |procs| => procs[i].(cancelled := procs[i].probe.Some? || procs[i].cancelled))
  }

  function Shutdown(s: State): State {
    s.(ready := false, procs := CancelAll(s.procs))
  }

  function Halt(s: State, o: Outcome): Machine
    requires !o.Idle?
  {
    if o.Broken? then Machine(s, Crashed)
    else Machine(Shutdown(s), Stopped(128 + o.signal, Groups(s)))
  }

  /** `fail_startup` and the code after the loop, which only recomputes readiness. */
  function Abandon(s: State, reason: Reason): Machine {
    Machine(UpdateReady(FailStartup(s, reason)), Supervising)
  }

  /** The gate a declaration just spawned opens. */
  function Gated(p: Campd.Process, i: nat, now: nat): Control {
    if p.kind.Service? && p.probe.None? then Next(i + 1) else Gate(i, now + Campd.StartupCost(p))
  }

  function AtNext(s: State, p: Campd.Process, i: nat, t: Tick): Machine {
    if s.failure.Some? then Abandon(s, s.failure.value)
    else
      var after := Spawn(s, p, t.spawned);
      if Starts(p, t.spawned) then Machine(after, Gated(p, i, t.gateNow)) else Abandon(after, SpawnFailed(p.name))
  }

  function AtServiceGate(s: State, j: nat, deadline: nat, t: Tick): Machine
    requires j < |s.procs|
  {
    var e := s.procs[j];
    if s.failure.Some? then Abandon(s, s.failure.value)
    else if e.probe.Some? && e.probe.value.health.Ready? then Machine(s, Next(j + 1))
    else if t.gateNow >= deadline then Abandon(s, ProbeTimedOut(e.name))
    else Machine(s, Gate(j, deadline))
  }

  function AtJobGate(s: State, j: nat, deadline: nat, t: Tick): Machine
    requires j < |s.procs|
  {
    var e := s.procs[j];
    if s.failure.Some? then
      Abandon(if e.alive then ScheduleCleanup(s, e.pid, t.gatePresent, t.gateTermAt) else s, s.failure.value)
    else if e.exitStatus.Some? then
      if e.exitStatus.value.ExitCode() != 0 then Abandon(s, JobFailed(e.name, e.exitStatus.value))
      else if e.residualGroup then Abandon(s, JobLeftDescendants(e.name))
      else Machine(s, Next(j + 1))
    else if t.gateNow >= deadline then
      Abandon(ScheduleCleanup(s, e.pid, t.gatePresent, t.gateTermAt), JobTimedOut(e.name))
    else Machine(s, Gate(j, deadline))
  }

  function AtGate(s: State, j: nat, deadline: nat, t: Tick): Machine {
    if j >= |s.procs| then Machine(s, Crashed)
    else if s.procs[j].kind.Service? then AtServiceGate(s, j, deadline, t)
    else AtJobGate(s, j, deadline, t)
  }

  /** The end of initialization, once every declaration passed its gate. */
  function Finish(s: State): Machine {
    Machine(UpdateReady(s.(complete := s.complete || s.failure.None?)), Supervising)
  }

  /** What follows a call of `drive` that left state `s` and answered `o`. */
  function Follow(plan: seq<Campd.Process>, s: State, o: Outcome, at: Control, t: Tick): Machine {
    if !o.Idle? then Halt(s, o)
    else match at
      case Next(i) => if i < |plan| then AtNext(s, plan[i], i, t) else Finish(s)
      case Gate(j, deadline) => AtGate(s, j, deadline, t)
      case _ => Machine(s, at)
  }

  /** One call of `drive` and everything up to the next one. */
  function Step(plan: seq<Campd.Process>, m: Machine, t: Tick): Machine {
    if m.at.Stopped? || m.at.Crashed? then m
    else Follow(plan, Drive(m.s, t).0, Drive(m.s, t).1, m.at, t)
  }

  function Steps(plan: seq<Campd.Process>, ticks: seq<Tick>): Machine {
    if ticks == [] then START
    else Step(plan, Steps(plan, ticks[..|ticks| - 1]), ticks[|ticks| - 1])
  }
}
