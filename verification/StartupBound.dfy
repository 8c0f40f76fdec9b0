/**
 How long campd may spend initializing when time passes only inside its timed
 receive: never more than the budget its validator accepted.
 */
module StartupBound {
  import opened Supervision
  import Campd

  /** `wait_duration`, and the zero wait outside the gates. */
  function WaitFor(at: Control, clock: nat): nat {
    match at
    case Gate(_, deadline) =>
      if deadline <= clock then 0 else if deadline - clock < POLL_INTERVAL then deadline - clock else POLL_INTERVAL
    case Supervising => POLL_INTERVAL
    case _ => 0
  }

  /**
   A step that begins at `clock` and whose only waiting is the receive: it
   returns early when a probe result arrives and otherwise waits it out.
   */
  predicate Timely(m: Machine, clock: nat, t: Tick) {
    && clock <= t.gateNow <= clock + WaitFor(m.at, clock)
    && (t.late == [] ==> t.gateNow == clock + WaitFor(m.at, clock))
  }

  /** The clock after a run. */
  function Clock(start: nat, ticks: seq<Tick>): nat {
    if ticks == [] then start else ticks[|ticks| - 1].gateNow
  }

  ghost predicate TimelyRun(plan: seq<Campd.Process>, start: nat, ticks: seq<Tick>) {
    ticks == []
    || var init := ticks[..|ticks| - 1];
       && TimelyRun(plan, start, init)
       && Timely(Steps(plan, init), Clock(start, init), ticks[|ticks| - 1])
  }

  /** Steps taken before initialization ended, split by whether a probe result arrived. */
  function GateSteps(plan: seq<Campd.Process>, ticks: seq<Tick>, eventful: bool): nat {
    if ticks == [] then 0
    else
      var init, t := ticks[..|ticks| - 1], ticks[|ticks| - 1];
      GateSteps(plan, init, eventful)
      + if Steps(plan, init).at.Gate? && (t.late != []) == eventful then 1 else 0
  }

  function NextSteps(plan: seq<Campd.Process>, ticks: seq<Tick>): nat {
    if ticks == [] then 0
    else
      NextSteps(plan, ticks[..|ticks| - 1]) + if Steps(plan, ticks[..|ticks| - 1]).at.Next? then 1 else 0
  }

  function Budget(plan: seq<Campd.Process>, n: nat): nat
    requires n <= |plan|
  {
    Campd.StartupBudget(plan[..n])
  }

  lemma BudgetSnoc(plan: seq<Campd.Process>, n: nat)
    requires n < |plan|
    ensures Budget(plan, n + 1) == Budget(plan, n) + Campd.StartupCost(plan[n])
  {
    assert plan[..n + 1][..n] == plan[..n];
  }

  lemma {:induction false} BudgetMonotone(plan: seq<Campd.Process>, n: nat)
    requires n <= |plan|
    ensures Budget(plan, n) <= Campd.StartupBudget(plan)
    decreases |plan| - n
  {
    if n < |plan| {
      BudgetSnoc(plan, n);
      BudgetMonotone(plan, n + 1);
    } else {
      assert plan[..n] == plan;
    }
  }

  predicate Initializing(at: Control) {
    at.Next? || at.Gate?
  }

  /**
   Where a run may be at a given clock: at a declaration only within the
   budget of those before it, and in a gate only up to its deadline, which
   the budget of the declarations so far covers.
   */
  ghost predicate OnTime(plan: seq<Campd.Process>, start: nat, at: Control, clock: nat) {
    match at
    case Next(i) => i <= |plan| && start <= clock <= start + Budget(plan, i)
    case Gate(j, deadline) => j < |plan| && start <= clock <= deadline <= start + Budget(plan, j + 1)
    case _ => true
  }

  /**
   Steps so far against the clock: each quiet step in a gate used up a whole
   poll interval, except the last one of each gate.
   */
  ghost predicate Counted(start: nat, at: Control, clock: nat, quiet: nat, nexts: nat) {
    match at
    case Next(i) => POLL_INTERVAL * quiet <= clock - start + POLL_INTERVAL * i && nexts <= i
    case Gate(j, deadline) => POLL_INTERVAL * quiet <= clock - start + POLL_INTERVAL * j && nexts <= j + 1
    case _ => true
  }

  /** Where a step may lead, and that a gate is kept only strictly before its deadline. */
  ghost predicate Moves(plan: seq<Campd.Process>, before: Control, after: Control, now: nat) {
    match before
    case Next(i) =>
      Initializing(after) ==>
        i < |plan| && (after == Next(i + 1) || after == Gate(i, now + Campd.StartupCost(plan[i])))
    case Gate(j, deadline) => Initializing(after) ==> after == Next(j + 1) || (after == before && now < deadline)
    case _ => !Initializing(after)
  }

  lemma FollowMoves(plan: seq<Campd.Process>, s: State, o: Outcome, at: Control, t: Tick)
    ensures Moves(plan, at, Follow(plan, s, o, at, t).at, t.gateNow)
  {
  }

  lemma StepMoves(plan: seq<Campd.Process>, m: Machine, t: Tick)
    ensures Moves(plan, m.at, Step(plan, m, t).at, t.gateNow)
  {
    FollowMoves(plan, Drive(m.s, t).0, Drive(m.s, t).1, m.at, t);
  }

  lemma MovesOnTime(plan: seq<Campd.Process>, start: nat, m: Machine, clock: nat, t: Tick, after: Control)
    requires OnTime(plan, start, m.at, clock) && Timely(m, clock, t) && Moves(plan, m.at, after, t.gateNow)
    ensures OnTime(plan, start, after, t.gateNow)
  {
    match m.at {
      case Next(i) =>
        if i < |plan| {
          BudgetSnoc(plan, i);
        }
      case Gate(j, deadline) =>
      case Supervising =>
      case Stopped(_, _) =>
      case Crashed =>
    }
  }

  lemma MovesCounted(plan: seq<Campd.Process>, start: nat, m: Machine, clock: nat, t: Tick, after: Control,
                     quiet: nat, nexts: nat)
    requires OnTime(plan, start, m.at, clock) && Timely(m, clock, t) && Moves(plan, m.at, after, t.gateNow)
    requires Counted(start, m.at, clock, quiet, nexts)
    ensures Counted(start, after, t.gateNow, quiet + if m.at.Gate? && t.late == [] then 1 else 0,
                    nexts + if m.at.Next? then 1 else 0)
  {
  }

  lemma {:induction false} RunOnTime(plan: seq<Campd.Process>, start: nat, ticks: seq<Tick>)
    requires TimelyRun(plan, start, ticks)
    ensures var at, clock := Steps(plan, ticks).at, Clock(start, ticks);
            && OnTime(plan, start, at, clock)
            && Counted(start, at, clock, GateSteps(plan, ticks, false), NextSteps(plan, ticks))
    decreases |ticks|
  {
    if ticks != [] {
      var init, t := ticks[..|ticks| - 1], ticks[|ticks| - 1];
      var m, clock := Steps(plan, init), Clock(start, init);
      RunOnTime(plan, start, init);
      StepMoves(plan, m, t);
      MovesOnTime(plan, start, m, clock, t, Steps(plan, ticks).at);
      MovesCounted(plan, start, m, clock, t, Steps(plan, ticks).at,
                   GateSteps(plan, init, false), NextSteps(plan, init));
    }
  }

  /** A gate is left by its deadline: the run is still in it only strictly before. */
  lemma GateEndsByDeadline(plan: seq<Campd.Process>, start: nat, ticks: seq<Tick>, t: Tick)
    requires TimelyRun(plan, start, ticks + [t]) && Steps(plan, ticks).at.Gate?
    ensures var deadline := Steps(plan, ticks).at.deadline;
            && t.gateNow <= deadline
            && (Steps(plan, ticks + [t]).at.Gate? ==>
                  t.gateNow < deadline && Steps(plan, ticks + [t]).at == Steps(plan, ticks).at)
  {
    assert (ticks + [t])[..|ticks|] == ticks;
    RunOnTime(plan, start, ticks);
    StepMoves(plan, Steps(plan, ticks), t);
  }

  /**
   For a declaration campd accepts: up to and including the step that ends
   initialization at most 25 seconds pass, and it takes at most 500 quiet
   gate steps plus one for each declaration, whatever the environment does.
   Only steps woken by a probe result can be more.
   */
  lemma InitializationBound(spec: Campd.Spec, start: nat, ticks: seq<Tick>, t: Tick)
    requires Campd.Accepts(spec)
    requires var plan := Campd.Processes(spec);
             TimelyRun(plan, start, ticks + [t]) && Initializing(Steps(plan, ticks).at)
    ensures var plan := Campd.Processes(spec);
            && Clock(start, ticks + [t]) - start <= Campd.MAX_STARTUP_BUDGET_MS
            && GateSteps(plan, ticks, false) <= 500 + |plan|
            && NextSteps(plan, ticks) <= |plan|
            && |ticks| == NextSteps(plan, ticks) + GateSteps(plan, ticks, false) + GateSteps(plan, ticks, true)
  {
    var plan := Campd.Processes(spec);
    assert (ticks + [t])[..|ticks|] == ticks;
    StepsBound(spec, start, ticks);
    RunOnTime(plan, start, ticks);
    match Steps(plan, ticks).at {
      case Next(i) => BudgetMonotone(plan, i);
      case Gate(j, deadline) => BudgetMonotone(plan, j + 1);
    }
  }

  lemma StepsBound(spec: Campd.Spec, start: nat, ticks: seq<Tick>)
    requires Campd.Accepts(spec)
    requires var plan := Campd.Processes(spec);
             TimelyRun(plan, start, ticks) && Initializing(Steps(plan, ticks).at)
    ensures var plan := Campd.Processes(spec);
            && GateSteps(plan, ticks, false) <= 500 + |plan|
            && NextSteps(plan, ticks) <= |plan|
            && |ticks| == NextSteps(plan, ticks) + GateSteps(plan, ticks, false) + GateSteps(plan, ticks, true)
  {
    hide Steps, NextSteps, GateSteps, TimelyRun, Campd.StartupBudget;
    var plan := Campd.Processes(spec);
    RunOnTime(plan, start, ticks);
    match Steps(plan, ticks).at {
      case Next(i) => BudgetMonotone(plan, i);
      case Gate(j, deadline) => BudgetMonotone(plan, j + 1);
    }
    StepsSplit(plan, ticks);
  }

  /** While a run is initializing, each of its steps was of one of the three sorts. */
  lemma {:induction false} StepsSplit(plan: seq<Campd.Process>, ticks: seq<Tick>)
    requires Initializing(Steps(plan, ticks).at)
    ensures |ticks| == NextSteps(plan, ticks) + GateSteps(plan, ticks, false) + GateSteps(plan, ticks, true)
    decreases |ticks|
  {
    if ticks != [] {
      var init, t := ticks[..|ticks| - 1], ticks[|ticks| - 1];
      StepMoves(plan, Steps(plan, init), t);
      StepsSplit(plan, init);
    }
  }
}
