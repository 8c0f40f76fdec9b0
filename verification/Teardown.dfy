/**
 The last act of campd: signal every remaining process group, wait, kill what
 is left, wait again. Each poll answers which groups exist and how much later
 than the poll interval the next clock reading comes.
 */
module Teardown {
  import Supervision

  const SIGKILL: nat := 9

  datatype Poll = Poll(present: set<nat>, delay: nat)

  /** One `kill(-group, signal)`. */
  datatype Sent = Sent(group: nat, signal: nat)

  /** What exists after polls `from` up to `to`: once seen missing, a group is forgotten. */
  function Remaining(groups: set<nat>, polls: nat -> Poll, from: nat, until: nat): set<nat>
    requires from <= until
    decreases until - from
  {
    if from == until then groups else Remaining(groups, polls, from, until - 1) * polls(until - 1).present
  }

  /** The time that passes during polls `from` up to `to` while anything remains. */
  function Elapsed(groups: set<nat>, polls: nat -> Poll, from: nat, until: nat): nat
    requires from <= until
    decreases until - from
  {
    if from == until then 0
    else Elapsed(groups, polls, from, until - 1)
         + if Remaining(groups, polls, from, until) == {} then 0 else Supervision.POLL_INTERVAL + polls(until - 1).delay
  }

  /** One waiting phase ends at the first poll where nothing remains or its time is up. */
  ghost predicate PhaseEnds(groups: set<nat>, polls: nat -> Poll, from: nat, until: nat, limit: nat) {
    && from <= until
    && (Remaining(groups, polls, from, until) == {} || Elapsed(groups, polls, from, until) >= limit)
    && forall k :: from <= k < until ==>
         Remaining(groups, polls, from, k) != {} && Elapsed(groups, polls, from, k) < limit
  }

  method Await(groups: set<nat>, polls: nat -> Poll, from: nat, limit: nat) returns (until: nat, remaining: set<nat>)
    ensures PhaseEnds(groups, polls, from, until, limit)
    ensures remaining == Remaining(groups, polls, from, until)
  {
    until, remaining := from, groups;
    var clock := 0;
    while remaining != {} && clock < limit
      invariant from <= until && remaining == Remaining(groups, polls, from, until)
      invariant clock == Elapsed(groups, polls, from, until)
      invariant forall k :: from <= k < until ==>
        Remaining(groups, polls, from, k) != {} && Elapsed(groups, polls, from, k) < limit
      decreases if clock < limit then limit - clock else 0, |remaining|
    {
      remaining := remaining * polls(until).present;
      if remaining != {} {
        clock := clock + Supervision.POLL_INTERVAL + polls(until).delay;
      }
      until := until + 1;
    }
  }

  /** `for group in groups { signal_group(group, signal) }`, in any order. */
  method SignalAll(groups: set<nat>, signal: nat) returns (sent: seq<Sent>)
    ensures multiset(sent) == multiset(set g | g in groups :: Sent(g, signal))
  {
    sent := [];
    var todo := groups;
    while todo != {}
      invariant todo <= groups
      invariant multiset(sent) == multiset(set g | g in groups - todo :: Sent(g, signal))
    {
      var g :| g in todo;
      ghost var before := set h | h in groups - todo :: Sent(h, signal);
      sent := sent + [Sent(g, signal)];
      todo := todo - {g};
      assert (set h | h in groups - todo :: Sent(h, signal)) == before + {Sent(g, signal)};
      assert Sent(g, signal) !in before;
    }
    assert groups - todo == groups;
  }

  datatype Report = Report(sent: seq<Sent>, asked: nat, first: nat, second: nat, survivors: set<nat>)

  /**
   The received signal goes once to each group before anything else is sent;
   what every poll of the first phase saw is then killed, once each.
   */
  ghost predicate TornDown(groups: set<nat>, signal: nat, polls: nat -> Poll, r: Report) {
    var stubborn := if PhaseEnds(groups, polls, 0, r.first, Supervision.SHUTDOWN_GRACE)
                    then Remaining(groups, polls, 0, r.first) else {};
    && PhaseEnds(groups, polls, 0, r.first, Supervision.SHUTDOWN_GRACE)
    && PhaseEnds(stubborn, polls, r.first, r.second, Supervision.KILL_GRACE)
    && r.asked <= |r.sent|
    && multiset(r.sent[..r.asked]) == multiset(set g | g in groups :: Sent(g, signal))
    && multiset(r.sent[r.asked..]) == multiset(set g | g in stubborn :: Sent(g, SIGKILL))
    && r.survivors == Remaining(stubborn, polls, r.first, r.second)
  }

  /** `terminate_groups`. */
  method TerminateGroups(groups: set<nat>, signal: nat, polls: nat -> Poll) returns (r: Report)
    ensures TornDown(groups, signal, polls, r)
  {
    var asked := SignalAll(groups, signal);
    var first, stubborn := Await(groups, polls, 0, Supervision.SHUTDOWN_GRACE);
    var forced := SignalAll(stubborn, SIGKILL);
    var second, survivors := Await(stubborn, polls, first, Supervision.KILL_GRACE);
    r := Report(asked + forced, |asked|, first, second, survivors);
    assert r.sent[..|asked|] == asked && r.sent[|asked|..] == forced;
  }

  // -------------------------------------------------------------- bounds

  /** No poll resumes more than `slack` after its interval. */
  predicate Punctual(polls: nat -> Poll, slack: nat, from: nat, until: nat) {
    forall k :: from <= k < until ==> polls(k).delay <= slack
  }

  lemma {:induction false} RemainingShrinks(groups: set<nat>, polls: nat -> Poll, from: nat, k: nat, until: nat)
    requires from <= k <= until
    ensures Remaining(groups, polls, from, until) <= Remaining(groups, polls, from, k) <= groups
    decreases until - from
  {
    if k < until {
      RemainingShrinks(groups, polls, from, k, until - 1);
    } else if from < until {
      RemainingShrinks(groups, polls, from, k - 1, until - 1);
    }
  }

  /** A group remains exactly when every poll of the phase saw it. */
  lemma {:induction false} RemainingMeaning(groups: set<nat>, polls: nat -> Poll, from: nat, until: nat, g: nat)
    requires from <= until
    ensures g in Remaining(groups, polls, from, until)
            <==> g in groups && forall k :: from <= k < until ==> g in polls(k).present
    decreases until - from
  {
    if from < until {
      RemainingMeaning(groups, polls, from, until - 1, g);
    }
  }

  /** Groups do not come back. */
  predicate NeverReturn(polls: nat -> Poll, from: nat, until: nat) {
    forall k :: from <= k && k + 1 < until ==> polls(k + 1).present <= polls(k).present
  }

  /** Then what remains after a phase is what its last poll saw. */
  lemma {:induction false} RemainingIsLastSeen(groups: set<nat>, polls: nat -> Poll, from: nat, until: nat)
    requires from < until && NeverReturn(polls, from, until)
    ensures Remaining(groups, polls, from, until) == groups * polls(until - 1).present
    decreases until
  {
    if from + 1 < until {
      RemainingIsLastSeen(groups, polls, from, until - 1);
      var k := until - 2;
      assert polls(k + 1).present <= polls(k).present;
    } else {
      assert Remaining(groups, polls, from, from) == groups;
    }
  }

  /** Until the phase may end, every poll sleeps at least one interval. */
  lemma {:induction false} ElapsedAtLeast(groups: set<nat>, polls: nat -> Poll, from: nat, until: nat)
    requires from <= until && Remaining(groups, polls, from, until) != {}
    ensures Elapsed(groups, polls, from, until) >= Supervision.POLL_INTERVAL * (until - from)
    decreases until - from
  {
    if from < until {
      RemainingShrinks(groups, polls, from, until - 1, until);
      ElapsedAtLeast(groups, polls, from, until - 1);
    }
  }

  /** A phase makes a bounded number of polls and overruns its time by one sleep at most. */
  lemma PhaseBound(groups: set<nat>, polls: nat -> Poll, from: nat, until: nat, limit: nat, slack: nat)
    requires PhaseEnds(groups, polls, from, until, limit) && Punctual(polls, slack, from, until)
    ensures Supervision.POLL_INTERVAL * (until - from) < limit + Supervision.POLL_INTERVAL
    ensures until > from ==> Elapsed(groups, polls, from, until) < limit + Supervision.POLL_INTERVAL + slack
  {
    if from < until {
      ElapsedAtLeast(groups, polls, from, until - 1);
    }
  }

  /**
   The whole teardown makes at most 120 polls and ends within the two grace
   periods plus one poll (and its lateness) for each phase.
   */
  lemma TeardownBound(groups: set<nat>, polls: nat -> Poll, first: nat, second: nat, slack: nat)
    requires PhaseEnds(groups, polls, 0, first, Supervision.SHUTDOWN_GRACE)
    requires var stubborn := Remaining(groups, polls, 0, first);
             PhaseEnds(stubborn, polls, first, second, Supervision.KILL_GRACE)
    requires Punctual(polls, slack, 0, second)
    ensures second <= 120
    ensures Elapsed(groups, polls, 0, first) + Elapsed(Remaining(groups, polls, 0, first), polls, first, second)
            <= Supervision.SHUTDOWN_GRACE + Supervision.KILL_GRACE + 2 * (Supervision.POLL_INTERVAL + slack)
  {
    var stubborn := Remaining(groups, polls, 0, first);
    assert Punctual(polls, slack, 0, first) && Punctual(polls, slack, first, second);
    PhaseBound(groups, polls, 0, first, Supervision.SHUTDOWN_GRACE, slack);
    PhaseBound(stubborn, polls, first, second, Supervision.KILL_GRACE, slack);
  }

  // --------------------------------------------------------------- meaning

  lemma CountIn(groups: set<nat>, signal: nat, g: nat, other: nat)
    ensures multiset(set h | h in groups :: Sent(h, signal))[Sent(g, other)]
            == if g in groups && other == signal then 1 else 0
  {
    var sent := set h | h in groups :: Sent(h, signal);
    assert Sent(g, other) in sent <==> g in groups && other == signal;
  }

  /**
   For any signal but KILL itself: it goes once to every group and to no
   other; KILL goes once to exactly the groups that every poll of the first
   phase saw; and no KILL comes before the last of the signals.
   */
  lemma TeardownMeaning(groups: set<nat>, signal: nat, polls: nat -> Poll, r: Report, g: nat)
    requires TornDown(groups, signal, polls, r) && signal != SIGKILL
    ensures multiset(r.sent)[Sent(g, signal)] == if g in groups then 1 else 0
    ensures multiset(r.sent)[Sent(g, SIGKILL)]
            == if g in groups && forall k :: 0 <= k < r.first ==> g in polls(k).present then 1 else 0
    ensures forall i, j :: 0 <= i < |r.sent| && 0 <= j < |r.sent| ==>
              r.sent[i].signal == SIGKILL && r.sent[j].signal == signal ==> j < i
  {
    var stubborn := Remaining(groups, polls, 0, r.first);
    assert r.sent == r.sent[..r.asked] + r.sent[r.asked..];
    CountIn(groups, signal, g, signal);
    CountIn(groups, signal, g, SIGKILL);
    CountIn(stubborn, SIGKILL, g, signal);
    CountIn(stubborn, SIGKILL, g, SIGKILL);
    RemainingMeaning(groups, polls, 0, r.first, g);
    forall i | 0 <= i < |r.sent|
      ensures i < r.asked ==> r.sent[i].signal == signal
      ensures i >= r.asked ==> r.sent[i].signal == SIGKILL
    {
      if i < r.asked {
        assert r.sent[i] in multiset(r.sent[..r.asked]) by { assert r.sent[..r.asked][i] == r.sent[i]; }
      } else {
        assert r.sent[i] in multiset(r.sent[r.asked..]) by { assert r.sent[r.asked..][i - r.asked] == r.sent[i]; }
      }
    }
  }
}
