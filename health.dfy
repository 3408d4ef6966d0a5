/**
 * The health status cell and the checker that updates it after every probe.
 * `Step` and `Run` are the specification; the classes `HealthStatus` and
 * `Checker` update the cell in place, as the program does, and are proved
 * against them.
 */
module Health {
  import opened Wrappers
  import opened Text
  import opened Probe

  /** The recorded health: `healthy` means something only when `valid` (a check has reached a verdict). */
  datatype NullBool = NullBool(healthy: bool, valid: bool)

  /** The status at start-up: undetermined. */
  const Undetermined := NullBool(false, false)

  /** The abstract log line a check emits. */
  datatype LogEvent =
    | RequestFailed            // ERROR: the health-check request itself failed
    | BodyReadFailed           // ERROR: the response body could not be read
    | CheckPassed              // INFO: the check passed
    | CheckFailed(status: int) // ERROR: the check failed, with the response status

  /** Events that announce a change of the recorded verdict. */
  predicate IsTransition(e: LogEvent)
  {
    !e.BodyReadFailed?
  }

  /** The recorded verdict, `None` while undetermined. */
  function Recorded(s: NullBool): Option<bool>
  {
    if s.valid then Some(s.healthy) else None
  }

  /** The verdict one outcome determines, `None` when the check gives up before judging. */
  function Determined(config: Config, o: Outcome): Option<bool>
  {
    match Evaluate(config, o)
    case Unreachable => Some(false)
    case Aborted => None
    case Judged(passed, _) => Some(passed)
  }

  /** One health check: the new status and the event logged, if any. */
  function Step(config: Config, s: NullBool, o: Outcome): (r: (NullBool, Option<LogEvent>))
    ensures Determined(config, o).None? <==> r.1 == Some(BodyReadFailed)
    ensures Determined(config, o).None? ==> r.0 == s
    ensures Determined(config, o).Some? ==> r.0 == NullBool(Determined(config, o).value, true)
    ensures (r.1.Some? && IsTransition(r.1.value))
              <==> Determined(config, o).Some? && Determined(config, o) != Recorded(s)
    ensures r.1 == Some(CheckPassed) <==> Determined(config, o) == Some(true) && Recorded(s) != Some(true)
    ensures (r.1.Some? && IsTransition(r.1.value) && r.1.value != CheckPassed)
            ==> r.1.value == (if o.NetError? then RequestFailed else CheckFailed(o.status))
  {
    Transition(s, Evaluate(config, o))
  }

  /**
   * How a verdict moves the recorded status, and the event it logs: the
   * in-place updates of main.go:110-116 (network error) and main.go:141-149
   * (judged response); an aborted check returns before them (main.go:129-132).
   */
  function Transition(s: NullBool, v: Verdict): (NullBool, Option<LogEvent>)
  {
    match v
    case Unreachable =>
      if !s.valid || s.healthy then (NullBool(false, true), Some(RequestFailed)) else (s, None)
    case Aborted =>
      (s, Some(BodyReadFailed))
    case Judged(isValid, status) =>
      if isValid && (!s.valid || !s.healthy) then (NullBool(true, true), Some(CheckPassed))
      else if !isValid && (!s.valid || s.healthy) then (NullBool(false, true), Some(CheckFailed(status)))
      else (s, None)
  }

  function Events(e: Option<LogEvent>): seq<LogEvent>
  {
    if e.Some? then [e.value] else []
  }

  /**
   * The checks of a run in order: the final status and the whole log. Each
   * check logs at most one event, and the status is either untouched or determined.
   */
  function Run(config: Config, s: NullBool, outcomes: seq<Outcome>): (r: (NullBool, seq<LogEvent>))
    ensures |r.1| <= |outcomes|
    ensures r.0 == s || r.0.valid
  {
    if outcomes == [] then (s, [])
    else
      var (mid, log) := Run(config, s, outcomes[..|outcomes| - 1]);
      var (next, e) := Step(config, mid, outcomes[|outcomes| - 1]);
      (next, log + Events(e))
  }

  /** The number of transition events in a log. */
  function TransitionCount(log: seq<LogEvent>): nat
  {
    if log == [] then 0
    else TransitionCount(log[..|log| - 1]) + if IsTransition(log[|log| - 1]) then 1 else 0
  }

  // Reference definitions over the sequence of verdicts alone, with no status cell.

  /** The verdicts of a run of outcomes, `None` for a check that did not judge. */
  function Verdicts(config: Config, outcomes: seq<Outcome>): seq<Option<bool>>
  {
    seq(|outcomes|, i requires 0 <= i < |outcomes| => Determined(config, outcomes[i]))
  }

  /** The latest verdict, falling back to `initial` when no check reached a verdict (a network error counts as one). */
  function LastVerdict(initial: Option<bool>, vs: seq<Option<bool>>): Option<bool>
  {
    if vs == [] then initial
    else if vs[|vs| - 1].Some? then vs[|vs| - 1]
    else LastVerdict(initial, vs[..|vs| - 1])
  }

  /** The number of verdicts that differ from the verdict in force before them. */
  function Edges(initial: Option<bool>, vs: seq<Option<bool>>): nat
  {
    if vs == [] then 0
    else
      var prefix := vs[..|vs| - 1];
      var v := vs[|vs| - 1];
      Edges(initial, prefix) + if v.Some? && v != LastVerdict(initial, prefix) then 1 else 0
  }

  lemma VerdictsSnoc(config: Config, outcomes: seq<Outcome>)
    requires outcomes != []
    ensures var vs := Verdicts(config, outcomes);
            |vs| == |outcomes|
            && vs[..|vs| - 1] == Verdicts(config, outcomes[..|outcomes| - 1])
            && vs[|vs| - 1] == Determined(config, outcomes[|outcomes| - 1])
  {
  }

  lemma TransitionCountAppend(log: seq<LogEvent>, e: Option<LogEvent>)
    ensures TransitionCount(log + Events(e))
            == TransitionCount(log) + if e.Some? && IsTransition(e.value) then 1 else 0
  {
    if e.None? {
      assert log + Events(e) == log;
    } else {
      assert (log + [e.value])[..|log|] == log;
    }
  }

  /** After a run the recorded verdict is the latest one reached, a network error included, or the initial one if none was. */
  lemma {:induction false} RunRecordsLastVerdict(config: Config, s: NullBool, outcomes: seq<Outcome>)
    ensures Recorded(Run(config, s, outcomes).0) == LastVerdict(Recorded(s), Verdicts(config, outcomes))
  {
    if outcomes != [] {
      var prefix := outcomes[..|outcomes| - 1];
      RunRecordsLastVerdict(config, s, prefix);
      VerdictsSnoc(config, outcomes);
    }
  }

  /** A run logs exactly one transition event per verdict that differs from the one in force before it. */
  lemma {:induction false} RunCountsEdges(config: Config, s: NullBool, outcomes: seq<Outcome>)
    ensures TransitionCount(Run(config, s, outcomes).1) == Edges(Recorded(s), Verdicts(config, outcomes))
  {
    if outcomes != [] {
      var prefix := outcomes[..|outcomes| - 1];
      var o := outcomes[|outcomes| - 1];
      RunCountsEdges(config, s, prefix);
      RunRecordsLastVerdict(config, s, prefix);
      VerdictsSnoc(config, outcomes);
      var before := Run(config, s, prefix);
      var r := Step(config, before.0, o);
      assert Run(config, s, outcomes) == (r.0, before.1 + Events(r.1));
      TransitionCountAppend(before.1, r.1);
    }
  }

  /**
   * A run agrees with its verdicts: the recorded verdict afterwards is the
   * latest one reached, a network error included (or the initial one), the
   * status is unchanged if no check reached a verdict, and the log holds exactly one transition event per change of verdict.
   */
  lemma RunFollowsVerdicts(config: Config, s: NullBool, outcomes: seq<Outcome>)
    ensures Recorded(Run(config, s, outcomes).0) == LastVerdict(Recorded(s), Verdicts(config, outcomes))
    ensures Run(config, s, outcomes).0.valid || Run(config, s, outcomes).0 == s
    ensures TransitionCount(Run(config, s, outcomes).1) == Edges(Recorded(s), Verdicts(config, outcomes))
  {
    RunRecordsLastVerdict(config, s, outcomes);
    RunCountsEdges(config, s, outcomes);
  }

  /** Fail-closed start: the status stays undetermined while every check aborts on an unreadable body. */
  lemma {:induction false} UndeterminedUntilJudged(config: Config, outcomes: seq<Outcome>)
    requires forall i :: 0 <= i < |outcomes| ==> Determined(config, outcomes[i]).None?
    ensures Run(config, Undetermined, outcomes).0 == Undetermined
  {
    if outcomes != [] {
      UndeterminedUntilJudged(config, outcomes[..|outcomes| - 1]);
    }
  }

  /** Once any check has reached a verdict (a network error included), the status stays determined. */
  lemma {:induction false} DeterminedAfterJudgement(config: Config, s: NullBool, outcomes: seq<Outcome>, k: nat)
    requires k < |outcomes| && Determined(config, outcomes[k]).Some?
    ensures Run(config, s, outcomes).0.valid
  {
    if k < |outcomes| - 1 {
      DeterminedAfterJudgement(config, s, outcomes[..|outcomes| - 1], k);
    }
  }

  /** Repeated identical verdicts are silent: after the first, no further transition is logged. */
  lemma {:induction false} RepeatsAreSilent(config: Config, s: NullBool, outcomes: seq<Outcome>, v: bool)
    requires forall i :: 0 <= i < |outcomes| ==> Determined(config, outcomes[i]) == Some(v)
    requires Recorded(s) == Some(v)
    ensures Run(config, s, outcomes) == (s, [])
  {
    if outcomes != [] {
      var o := outcomes[|outcomes| - 1];
      RepeatsAreSilent(config, s, outcomes[..|outcomes| - 1], v);
      assert Determined(config, o) == Some(v);
      var r := Step(config, s, o);
      assert r.0 == s && r.1 == None;
      assert Run(config, s, outcomes) == (r.0, [] + Events(r.1));
      assert [] + Events(r.1) == [];
    }
  }

  /** Healthy, then unreachable, then healthy again: exactly two transitions are logged. */
  lemma FlapLogsTwice(config: Config, ok: Outcome)
    requires Determined(config, ok) == Some(true)
    ensures var (s, log) := Run(config, NullBool(true, true), [NetError, ok]);
            s == NullBool(true, true) && TransitionCount(log) == 2
  {
    RunFollowsVerdicts(config, NullBool(true, true), [NetError, ok]);
    var vs := Verdicts(config, [NetError, ok]);
    assert vs[0] == Determined(config, NetError) && vs[1] == Determined(config, ok);
    assert vs == [Some(false), Some(true)];
    assert vs[..1] == [Some(false)];
    assert vs[..1][..0] == [];
    assert LastVerdict(Some(true), vs[..1]) == Some(false);
    assert Edges(Some(true), vs[..1]) == 1;
  }

  /** The shared status cell, written by the checker and read by the request gate. */
  class HealthStatus {
    var healthy: bool
    var valid: bool

    /** The cell as the program creates it: undetermined. */
    constructor ()
      ensures Snapshot() == Undetermined
    {
      healthy := false;
      valid := false;
    }

    function Snapshot(): NullBool
      reads this
    {
      NullBool(healthy, valid)
    }
  }

  /** The health-check closure together with the configuration it captured and the cell it writes. */
  class Checker {
    const config: Config
    const status: HealthStatus

    constructor (config: Config, status: HealthStatus)
      ensures this.config == config && this.status == status
    {
      this.config := config;
      this.status := status;
    }

    /** Scans the valid-status list for `code`, stopping at the first match. */
    method IsValidStatus(code: int) returns (isValid: bool)
      ensures isValid <==> code in config.validStatuses
    {
      isValid := false;
      var i := 0;
      while i < |config.validStatuses|
        invariant 0 <= i <= |config.validStatuses|
        invariant code !in config.validStatuses[..i]
      {
        if code == config.validStatuses[i] {
          isValid := true;
          break;
        }
        i := i + 1;
      }
      assert i == |config.validStatuses| ==> config.validStatuses[..i] == config.validStatuses;
    }

    /**
     * The probe half of a check: a network error, or a body that had to be read
     * and could not be, ends it early; otherwise the status is looked up in the
     * valid-status list and, with an expected body, the trimmed bodies are compared.
     */
    method Judge(o: Outcome) returns (verdict: Verdict)
      ensures verdict == Evaluate(config, o)
    {
      if o.NetError? {
        return Unreachable;
      }
      var isValid := IsValidStatus(o.status);
      if config.expectedBody != "" {
        if o.body.Unreadable? {
          return Aborted;
        }
        if TrimSpace(o.body.text) != TrimSpace(config.expectedBody) {
          isValid := false;
        }
      }
      verdict := Judged(isValid, o.status);
    }

    /** The update half of a check: writes the cell in place only when the verdict changes what it records. */
    method Record(verdict: Verdict) returns (event: Option<LogEvent>)
      modifies status
      ensures (status.Snapshot(), event) == Transition(old(status.Snapshot()), verdict)
    {
      event := None;
      match verdict {
        case Unreachable =>
          if !status.valid || status.healthy {
            event := Some(RequestFailed);
            status.valid := true;
            status.healthy := false;
          }
        case Aborted =>
          event := Some(BodyReadFailed);
        case Judged(isValid, code) =>
          if isValid && (!status.valid || !status.healthy) {
            status.valid := true;
            status.healthy := true;
            event := Some(CheckPassed);
          } else if !isValid && (!status.valid || status.healthy) {
            status.valid := true;
            status.healthy := false;
            event := Some(CheckFailed(code));
          }
      }
    }

    /** One health check: judges the outcome, then updates the cell in place and returns the event it logs. */
    method CheckHealth(o: Outcome) returns (event: Option<LogEvent>)
      modifies status
      ensures (status.Snapshot(), event) == Step(config, old(status.Snapshot()), o)
    {
      var verdict := Judge(o);
      event := Record(verdict);
    }

    /** The monitor: the immediate first check and one check per tick, over the outcomes they meet. */
    method Monitor(outcomes: seq<Outcome>) returns (log: seq<LogEvent>)
      modifies status
      ensures (status.Snapshot(), log) == Run(config, old(status.Snapshot()), outcomes)
    {
      log := [];
      var i := 0;
      while i < |outcomes|
        invariant 0 <= i <= |outcomes|
        invariant (status.Snapshot(), log) == Run(config, old(status.Snapshot()), outcomes[..i])
      {
        var event := CheckHealth(outcomes[i]);
        log := log + Events(event);
        assert outcomes[..i + 1][..i] == outcomes[..i];
        i := i + 1;
      }
      assert outcomes[..i] == outcomes;
    }
  }
}
