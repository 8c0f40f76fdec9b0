/** The readiness of one probed service: thresholds over saturating counters. */
module Probes {
  import opened Wrappers
  import opened Sandrun

  datatype Health = Starting | Ready | Unready

  datatype Gauge = Gauge(
    health: Health,
    successes: u32,
    failures: u32,
    successThreshold: u32,
    failureThreshold: u32)

  function Fresh(successThreshold: u32, failureThreshold: u32): Gauge {
    Gauge(Starting, 0, 0, successThreshold, failureThreshold)
  }

  /** `saturating_add(1)`. */
  function Increment(n: u32): u32 {
    if n == U32_MAX then n else n + 1
  }

  function Observed(g: Gauge, success: bool): Gauge {
    if success then
      var n := Increment(g.successes);
      g.(failures := 0, successes := n, health := if n >= g.successThreshold then Ready else g.health)
    else
      var n := Increment(g.failures);
      g.(successes := 0, failures := n, health := if n >= g.failureThreshold then Unready else g.health)
  }

  class ProbeState {
    var health: Health
    var consecutiveSuccesses: u32
    var consecutiveFailures: u32
    var successThreshold: u32
    var failureThreshold: u32

    ghost function State(): Gauge
      reads this
    {
      Gauge(health, consecutiveSuccesses, consecutiveFailures, successThreshold, failureThreshold)
    }

    constructor (successes: u32, failures: u32)
      ensures State() == Fresh(successes, failures)
    {
      health := Starting;
      consecutiveSuccesses, consecutiveFailures := 0, 0;
      successThreshold, failureThreshold := successes, failures;
    }

    constructor From(g: Gauge)
      ensures State() == g
    {
      health := g.health;
      consecutiveSuccesses, consecutiveFailures := g.successes, g.failures;
      successThreshold, failureThreshold := g.successThreshold, g.failureThreshold;
    }

    method Read() returns (g: Gauge)
      ensures g == State()
    {
      g := Gauge(health, consecutiveSuccesses, consecutiveFailures, successThreshold, failureThreshold);
    }

    /** `observe`, which also reports a change of health. */
    method Observe(success: bool) returns (change: Option<(Health, Health)>)
      modifies this
      ensures State() == Observed(old(State()), success)
      ensures change == if old(health) == health then None else Some((old(health), health))
    {
      var previous := health;
      if success {
        consecutiveFailures := 0;
        consecutiveSuccesses := Increment(consecutiveSuccesses);
        if consecutiveSuccesses >= successThreshold {
          health := Ready;
        }
      } else {
        consecutiveSuccesses := 0;
        consecutiveFailures := Increment(consecutiveFailures);
        if consecutiveFailures >= failureThreshold {
          health := Unready;
        }
      }
      return if previous != health then Some((previous, health)) else None;
    }
  }

  // ------------------------------------------------------------ hysteresis

  function After(g: Gauge, history: seq<bool>): Gauge {
    if history == [] then g
    else Observed(After(g, history[..|history| - 1]), history[|history| - 1])
  }

  /** The length of the run of `value` at the end of a history. */
  function Trailing(history: seq<bool>, value: bool): nat {
    if history == [] || history[|history| - 1] != value then 0
    else 1 + Trailing(history[..|history| - 1], value)
  }

  function Capped(n: nat): u32 {
    if n > U32_MAX then U32_MAX else n
  }

  /** The history ends in a run long enough to decide the health. */
  predicate Decides(history: seq<bool>, successThreshold: u32, failureThreshold: u32) {
    Trailing(history, true) >= successThreshold || Trailing(history, false) >= failureThreshold
  }

  function Verdict(value: bool): Health {
    if value then Ready else Unready
  }

  /**
   For every history of observations the counters are the lengths of its two
   trailing runs, capped at the integer width.
   */
  lemma {:induction false} CountersMeaning(s: u32, f: u32, history: seq<bool>)
    ensures var g := After(Fresh(s, f), history);
            && g.successes == Capped(Trailing(history, true))
            && g.failures == Capped(Trailing(history, false))
            && g.successThreshold == s && g.failureThreshold == f
    decreases |history|
  {
    if history != [] {
      CountersMeaning(s, f, history[..|history| - 1]);
    }
  }

  /** One more observation either decides the health or leaves it alone. */
  lemma LastObservation(s: u32, f: u32, history: seq<bool>)
    requires s >= 1 && f >= 1 && history != []
    ensures var n := |history| - 1;
            After(Fresh(s, f), history).health ==
            if Decides(history, s, f) then Verdict(history[n]) else After(Fresh(s, f), history[..n]).health
  {
    CountersMeaning(s, f, history[..|history| - 1]);
  }

  /**
   Hysteresis: a service is still starting exactly while no prefix of its
   history has decided; afterwards its health is the verdict of the latest
   prefix that did, however many shorter runs came later.
   */
  lemma {:induction false} HealthMeaning(s: u32, f: u32, history: seq<bool>)
    requires s >= 1 && f >= 1
    ensures var health := After(Fresh(s, f), history).health;
            && (health == Starting <==> forall k :: 1 <= k <= |history| ==> !Decides(history[..k], s, f))
            && forall k :: 1 <= k <= |history| && Decides(history[..k], s, f)
                 && (forall j :: k < j <= |history| ==> !Decides(history[..j], s, f))
                 ==> health == Verdict(history[k - 1])
    decreases |history|
  {
    hide Decides;
    if history != [] {
      var n := |history| - 1;
      var init := history[..n];
      HealthMeaning(s, f, init);
      LastObservation(s, f, history);
      assert history[..|history|] == history;
      assert forall k :: 0 <= k <= n ==> init[..k] == history[..k];
    }
  }
}
