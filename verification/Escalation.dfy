/** The life of a leftover process group: TERM, then KILL, then released. */
module Escalation {
  import opened Supervision
  import Campd

  /** Where one group stands, judged from the log alone. */
  datatype Phase = Quiet | Asked(at: nat) | Forced(at: nat) | Wrong

  /**
   TERM opens an episode; KILL may follow once, a grace period later; the
   episode closes when the group is gone, or after KILL when time is up.
   */
  function Advance(p: Phase, e: Event): Phase {
    match e
    case Terminated(_, at) => if p.Quiet? then Asked(at) else Wrong
    case Killed(_, at) => if p.Asked? && at >= p.at + SHUTDOWN_GRACE then Forced(p.at) else Wrong
    case Released(_, at, gaveUp) =>
      if (p.Asked? && !gaveUp) || (p.Forced? && (gaveUp ==> at >= p.at + SHUTDOWN_GRACE + KILL_GRACE)) then Quiet
      else Wrong
    case _ => p
  }

  function PhaseOf(log: seq<Event>, group: nat): Phase {
    if log == [] then Quiet
    else
      var last, before := log[|log| - 1], PhaseOf(log[..|log| - 1], group);
      if last.group == group then Advance(before, last) else before
  }

  /** Where the pending cleanups say a group stands. */
  function Expected(cs: seq<Cleanup>, group: nat): Phase {
    if cs == [] then Quiet
    else
      var last := cs[|cs| - 1];
      if last.group != group then Expected(cs[..|cs| - 1], group)
      else if last.killAt < SHUTDOWN_GRACE then Wrong
      else if last.killed then Forced(last.killAt - SHUTDOWN_GRACE)
      else Asked(last.killAt - SHUTDOWN_GRACE)
  }

  predicate Timed(c: Cleanup) {
    c.killAt >= SHUTDOWN_GRACE && c.giveUpAt == c.killAt + KILL_GRACE
  }

  ghost predicate DistinctGroups(cs: seq<Cleanup>) {
    forall i, j :: 0 <= i < j < |cs| ==> cs[i].group != cs[j].group
  }

  /** The log and the pending cleanups agree about every group, and the log is in order. */
  ghost predicate Orderly(s: State) {
    && DistinctGroups(s.cleanups)
    && (forall c :: c in s.cleanups ==> Timed(c))
    && forall g :: PhaseOf(s.log, g) == Expected(s.cleanups, g)
  }

  lemma {:induction false} ExpectedMeaning(cs: seq<Cleanup>, group: nat)
    requires forall c :: c in cs ==> Timed(c)
    ensures Expected(cs, group).Quiet? <==> !IsPending(cs, group)
    ensures Expected(cs, group) != Wrong
    decreases |cs|
  {
    if cs != [] {
      var init, last := cs[..|cs| - 1], cs[|cs| - 1];
      ExpectedMeaning(init, group);
      assert last in cs && forall c :: c in cs <==> c in init || c == last;
    }
  }

  lemma {:induction false} PhaseConcat(log: seq<Event>, more: seq<Event>, group: nat)
    requires forall e :: e in more ==> e.group != group
    ensures PhaseOf(log + more, group) == PhaseOf(log, group)
    decreases |more|
  {
    if more == [] {
      assert log + more == log;
    } else {
      PhaseConcat(log, more[..|more| - 1], group);
      assert (log + more)[..|log + more| - 1] == log + more[..|more| - 1];
    }
  }

  lemma PhaseSnoc(log: seq<Event>, e: Event, group: nat)
    ensures PhaseOf(log + [e], group)
            == if e.group == group then Advance(PhaseOf(log, group), e) else PhaseOf(log, group)
  {
    assert (log + [e])[..|log|] == log;
  }

  lemma ScheduleKeeps(s: State, group: nat, present: bool, now: nat)
    requires Orderly(s)
    ensures Orderly(ScheduleCleanup(s, group, present, now))
  {
    if present && !IsPending(s.cleanups, group) {
      var after := ScheduleCleanup(s, group, present, now);
      assert after.cleanups[..|s.cleanups|] == s.cleanups;
      forall g
        ensures PhaseOf(after.log, g) == Expected(after.cleanups, g)
      {
        PhaseSnoc(s.log, Terminated(group, now), g);
        ExpectedMeaning(s.cleanups, g);
      }
      forall i, j | 0 <= i < j < |after.cleanups|
        ensures after.cleanups[i].group != after.cleanups[j].group
      {
        assert s.cleanups[i] in s.cleanups;
      }
    }
  }

  /** What a change that leaves cleanups and log alone keeps. */
  lemma SameKeeps(s: State, after: State)
    requires Orderly(s) && after.cleanups == s.cleanups && after.log == s.log
    ensures Orderly(after)
  {
  }

  lemma {:induction false} ReapAllKeeps(s: State, waits: seq<Wait>)
    requires Orderly(s)
    ensures Orderly(ReapAll(s, waits))
    decreases |waits|
  {
    if waits != [] {
      var init, w := ReapAll(s, waits[..|waits| - 1]), waits[|waits| - 1];
      ReapAllKeeps(s, waits[..|waits| - 1]);
      if w.Child? && FindLive(init.procs, w.pid) < |init.procs| {
        var buried := Buried(init, FindLive(init.procs, w.pid), w.status, w.lingers);
        SameKeeps(init, buried);
        ScheduleKeeps(buried, w.pid, w.stillLingers, w.now);
      }
    }
  }

  lemma {:induction false} ObserveAllSame(s: State, os: seq<Observation>)
    ensures ObserveAll(s, os).cleanups == s.cleanups && ObserveAll(s, os).log == s.log
    decreases |os|
  {
    if os != [] {
      ObserveAllSame(s, os[..|os| - 1]);
    }
  }

  /** The events of a pass name groups that were pending. */
  lemma {:induction false} EventsPending(cs: seq<Cleanup>, present: set<nat>, now: nat)
    ensures forall e :: e in SweepEvents(cs, present, now) ==> IsPending(cs, e.group)
    ensures forall c :: c in Kept(cs, present, now) ==> IsPending(cs, c.group)
    ensures (forall c :: c in cs ==> Timed(c)) ==> forall c :: c in Kept(cs, present, now) ==> Timed(c)
    decreases |cs|
  {
    if cs != [] {
      var init, last := cs[..|cs| - 1], cs[|cs| - 1];
      EventsPending(init, present, now);
      assert last in cs && forall c :: c in init ==> c in cs;
      assert forall g :: IsPending(init, g) ==> IsPending(cs, g);
      assert IsPending(cs, last.group);
    }
  }

  lemma NotPending(cs: seq<Cleanup>, group: nat)
    requires cs != [] && DistinctGroups(cs) && cs[|cs| - 1].group == group
    ensures !IsPending(cs[..|cs| - 1], group)
  {
  }

  lemma ExpectedConcat(cs: seq<Cleanup>, more: seq<Cleanup>, group: nat)
    requires |more| <= 1
    ensures Expected(cs + more, group) == if more != [] && more[0].group == group then Expected(more, group)
                                          else Expected(cs, group)
  {
    if more == [] {
      assert cs + more == cs;
    } else {
      assert (cs + more)[..|cs|] == cs;
    }
  }

  /** One cleanup of a pass moves its group one legal step. */
  lemma SweepOnePhase(log: seq<Event>, c: Cleanup, present: set<nat>, now: nat, group: nat)
    requires Timed(c) && c.group == group && PhaseOf(log, group) == Expected([c], group)
    ensures var (kept, events) := SweepOne(c, present, now);
            PhaseOf(log + events, group) == Expected(kept, group)
  {
    var events := SweepOne(c, present, now).1;
    if |events| == 2 {
      PhaseSnoc(log, events[0], group);
      PhaseSnoc(log + [events[0]], events[1], group);
      assert log + events == log + [events[0]] + [events[1]];
    } else if |events| == 1 {
      assert events == [events[0]];
      PhaseSnoc(log, events[0], group);
    } else {
      assert log + events == log;
    }
  }

  /** The step for the group of the last cleanup: no earlier one of the pass touches it. */
  lemma SweepPhaseOfLast(log: seq<Event>, cs: seq<Cleanup>, present: set<nat>, now: nat, earlier: seq<Event>,
                         before: seq<Cleanup>)
    requires cs != [] && DistinctGroups(cs) && (forall c :: c in cs ==> Timed(c))
    requires var last := cs[|cs| - 1]; PhaseOf(log, last.group) == Expected([last], last.group)
    requires forall e :: e in earlier ==> IsPending(cs[..|cs| - 1], e.group)
    requires forall c :: c in before ==> IsPending(cs[..|cs| - 1], c.group) && Timed(c)
    ensures var last := cs[|cs| - 1];
            var (kept, events) := SweepOne(last, present, now);
            PhaseOf(log + earlier + events, last.group) == Expected(before + kept, last.group)
  {
    var last := cs[|cs| - 1];
    var (kept, events) := SweepOne(last, present, now);
    NotPending(cs, last.group);
    PhaseConcat(log, earlier, last.group);
    SweepOnePhase(log + earlier, last, present, now, last.group);
    ExpectedMeaning(before, last.group);
    ExpectedConcat(before, kept, last.group);
  }

  lemma {:induction false} SweepPhase(log: seq<Event>, cs: seq<Cleanup>, present: set<nat>, now: nat, group: nat)
    requires DistinctGroups(cs) && (forall c :: c in cs ==> Timed(c))
    requires PhaseOf(log, group) == Expected(cs, group)
    ensures PhaseOf(log + SweepEvents(cs, present, now), group) == Expected(Kept(cs, present, now), group)
    decreases |cs|
  {
    if cs == [] {
      assert log + [] == log;
    } else {
      hide PhaseOf;
      var init, last := cs[..|cs| - 1], cs[|cs| - 1];
      var earlier, before := SweepEvents(init, present, now), Kept(init, present, now);
      var (kept, events) := SweepOne(last, present, now);
      assert log + (earlier + events) == log + earlier + events;
      EventsPending(init, present, now);
      if last.group == group {
        SweepPhaseOfLast(log, cs, present, now, earlier, before);
      } else {
        SweepPhase(log, init, present, now, group);
        PhaseConcat(log + earlier, events, group);
        ExpectedConcat(before, kept, group);
      }
    }
  }

  lemma {:induction false} KeptDistinct(cs: seq<Cleanup>, present: set<nat>, now: nat)
    requires DistinctGroups(cs)
    ensures DistinctGroups(Kept(cs, present, now))
    decreases |cs|
  {
    if cs != [] {
      var init, last := cs[..|cs| - 1], cs[|cs| - 1];
      KeptDistinct(init, present, now);
      EventsPending(init, present, now);
      NotPending(cs, last.group);
      var before := Kept(init, present, now);
      assert forall i :: 0 <= i < |before| ==> before[i] in before;
    }
  }

  lemma SweepKeeps(s: State, present: set<nat>, now: nat)
    requires Orderly(s)
    ensures Orderly(Sweep(s, present, now))
  {
    forall g
      ensures PhaseOf(Sweep(s, present, now).log, g) == Expected(Sweep(s, present, now).cleanups, g)
    {
      SweepPhase(s.log, s.cleanups, present, now, g);
    }
    KeptDistinct(s.cleanups, present, now);
    EventsPending(s.cleanups, present, now);
  }

  lemma DriveKeeps(s: State, t: Tick)
    requires Orderly(s)
    ensures Orderly(Drive(s, t).0)
  {
    hide Orderly;
    var a := ReapAll(s, t.waits);
    ReapAllKeeps(s, t.waits);
    if !t.waitFault {
      var b := ObserveAll(a, t.queued);
      ObserveAllSame(a, t.queued);
      SameKeeps(a, b);
      SweepKeeps(b, t.present, t.now);
      var half := FirstHalf(s, t);
      SameKeeps(Sweep(b, t.present, t.now), half);
      if t.signal.None? {
        var c := ObserveAll(half, t.late);
        ObserveAllSame(half, t.late);
        SameKeeps(half, c);
        var d := ReapAll(c, t.lateWaits);
        ReapAllKeeps(c, t.lateWaits);
        SweepKeeps(d, t.latePresent, t.lateNow);
        SameKeeps(Sweep(d, t.latePresent, t.lateNow), SecondHalf(half, t));
      }
    }
  }

  lemma SpawnKeeps(s: State, p: Campd.Process, answer: SpawnAnswer)
    requires Orderly(s)
    ensures Orderly(Spawn(s, p, answer))
  {
    forall g
      ensures PhaseOf(Spawn(s, p, answer).log, g) == PhaseOf(s.log, g)
    {
      if answer.Running? {
        PhaseSnoc(s.log, Spawned(answer.pid), g);
        PhaseSnoc(s.log, Aborted(answer.pid), g);
      }
    }
  }

  lemma AtNextKeeps(s: State, p: Campd.Process, i: nat, t: Tick)
    requires Orderly(s)
    ensures Orderly(AtNext(s, p, i, t).s)
  {
    SpawnKeeps(s, p, t.spawned);
    var after := AtNext(s, p, i, t).s;
    if s.failure.Some? {
      SameKeeps(s, after);
    } else {
      SameKeeps(Spawn(s, p, t.spawned), after);
    }
  }

  lemma AtGateKeeps(s: State, j: nat, deadline: nat, t: Tick)
    requires Orderly(s)
    ensures Orderly(AtGate(s, j, deadline, t).s)
  {
    if j < |s.procs| {
      var scheduled := ScheduleCleanup(s, s.procs[j].pid, t.gatePresent, t.gateTermAt);
      ScheduleKeeps(s, s.procs[j].pid, t.gatePresent, t.gateTermAt);
      var after := AtGate(s, j, deadline, t).s;
      if after.cleanups == s.cleanups && after.log == s.log {
        SameKeeps(s, after);
      } else {
        SameKeeps(scheduled, after);
      }
    }
  }

  lemma FollowKeeps(plan: seq<Campd.Process>, s: State, o: Outcome, at: Control, t: Tick)
    requires Orderly(s)
    ensures Orderly(Follow(plan, s, o, at, t).s)
  {
    if o.Idle? && at.Next? && at.i < |plan| {
      AtNextKeeps(s, plan[at.i], at.i, t);
    } else if o.Idle? && at.Gate? {
      AtGateKeeps(s, at.j, at.deadline, t);
    } else {
      SameKeeps(s, Follow(plan, s, o, at, t).s);
    }
  }

  lemma {:induction false} RunOrderly(plan: seq<Campd.Process>, ticks: seq<Tick>)
    ensures Orderly(Steps(plan, ticks).s)
    decreases |ticks|
  {
    if ticks != [] {
      var m, t := Steps(plan, ticks[..|ticks| - 1]), ticks[|ticks| - 1];
      RunOrderly(plan, ticks[..|ticks| - 1]);
      DriveKeeps(m.s, t);
      FollowKeeps(plan, Drive(m.s, t).0, Drive(m.s, t).1, m.at, t);
    }
  }

  // -------------------------------------------------- what the log shows

  /** No event of a group lies strictly between two places of the log. */
  ghost predicate Untouched(log: seq<Event>, group: nat, from: nat, upto: nat)
    requires upto <= |log|
  {
    forall k :: from < k < upto ==> log[k].group != group || log[k].Spawned? || log[k].Aborted?
  }

  /** Every phase of a group but the first was opened by the TERM that started it. */
  lemma {:induction false} OpenedByTerm(log: seq<Event>, group: nat) returns (p: nat)
    requires PhaseOf(log, group).Asked?
    ensures p < |log| && log[p] == Terminated(group, PhaseOf(log, group).at)
    ensures Untouched(log, group, p, |log|)
    decreases |log|
  {
    var last := log[|log| - 1];
    if last.group == group && last.Terminated? {
      p := |log| - 1;
    } else {
      p := OpenedByTerm(log[..|log| - 1], group);
      assert forall k :: 0 <= k < |log| - 1 ==> log[..|log| - 1][k] == log[k];
    }
  }

  /** A wrong phase stays wrong, so every prefix of an orderly log is orderly. */
  lemma {:induction false} PrefixNotWrong(log: seq<Event>, group: nat, n: nat)
    requires n <= |log| && PhaseOf(log, group) != Wrong
    ensures PhaseOf(log[..n], group) != Wrong
    decreases |log|
  {
    if n == |log| {
      assert log[..n] == log;
    } else {
      assert log[..|log| - 1][..n] == log[..n];
      PrefixNotWrong(log[..|log| - 1], group, n);
    }
  }

  /**
   Over every run: a KILL is sent to a group only after a TERM at least five
   seconds earlier, with nothing done to that group in between. In particular
   no group is killed twice in one episode.
   */
  lemma KillFollowsTerm(plan: seq<Campd.Process>, ticks: seq<Tick>, n: nat) returns (p: nat)
    requires var log := Steps(plan, ticks).s.log; n < |log| && log[n].Killed?
    ensures var log := Steps(plan, ticks).s.log;
            && p < n && log[p].Terminated? && log[p].group == log[n].group
            && log[n].at >= log[p].at + 5_000
            && Untouched(log, log[n].group, p, n)
  {
    var s := Steps(plan, ticks).s;
    var group := s.log[n].group;
    RunOrderly(plan, ticks);
    ExpectedMeaning(s.cleanups, group);
    PrefixNotWrong(s.log, group, n + 1);
    PhaseSnoc(s.log[..n], s.log[n], group);
    assert s.log[..n + 1] == s.log[..n] + [s.log[n]];
    p := OpenedByTerm(s.log[..n], group);
    assert forall k :: 0 <= k < n ==> s.log[..n][k] == s.log[k];
  }

  lemma {:induction false} ForcedByKill(log: seq<Event>, group: nat) returns (p: nat)
    requires PhaseOf(log, group).Forced?
    ensures p < |log| && log[p].Killed? && log[p].group == group && Untouched(log, group, p, |log|)
    decreases |log|
  {
    var last := log[|log| - 1];
    if last.group == group && last.Killed? {
      p := |log| - 1;
    } else {
      p := ForcedByKill(log[..|log| - 1], group);
      assert forall k :: 0 <= k < |log| - 1 ==> log[..|log| - 1][k] == log[k];
    }
  }

  /** Over every run: a group that still exists is given up only after it was sent KILL. */
  lemma GivenUpOnlyAfterKill(plan: seq<Campd.Process>, ticks: seq<Tick>, n: nat) returns (p: nat)
    requires var log := Steps(plan, ticks).s.log; n < |log| && log[n].Released? && log[n].gaveUp
    ensures var log := Steps(plan, ticks).s.log;
            p < n && log[p].Killed? && log[p].group == log[n].group && Untouched(log, log[n].group, p, n)
  {
    var s := Steps(plan, ticks).s;
    var group := s.log[n].group;
    RunOrderly(plan, ticks);
    ExpectedMeaning(s.cleanups, group);
    PrefixNotWrong(s.log, group, n + 1);
    PhaseSnoc(s.log[..n], s.log[n], group);
    assert s.log[..n + 1] == s.log[..n] + [s.log[n]];
    p := ForcedByKill(s.log[..n], group);
    assert forall k :: 0 <= k < n ==> s.log[..n][k] == s.log[k];
  }

  /**
   After a pass every pending cleanup names a group that exists and is not yet
   past its give-up time; if its kill time has come it was killed; and an
   entry is missing only when its group was gone or its time was up.
   */
  lemma {:induction false} PassMeaning(cs: seq<Cleanup>, present: set<nat>, now: nat)
    ensures forall c :: c in Kept(cs, present, now) ==>
      c.group in present && now < c.giveUpAt && (now >= c.killAt ==> c.killed)
    ensures forall c :: c in cs && c.group in present && now < c.giveUpAt ==>
      c.(killed := c.killed || now >= c.killAt) in Kept(cs, present, now)
    decreases |cs|
  {
    if cs != [] {
      PassMeaning(cs[..|cs| - 1], present, now);
      assert cs == cs[..|cs| - 1] + [cs[|cs| - 1]];
    }
  }
}
