/** The bounded planner: one structured call, then at most one repair or one retry, with its attempt accounting. */
module Planner {
  import opened Wrappers
  import opened Sequences

  datatype ProviderError = Transport | RateLimited(reset: Option<real>) | Http(status: int) | OtherClient | TimedOut

  /** How a planning or repair operation ends. */
  datatype Outcome = Answered(plan: int) | OutputInvalid | SemanticInvalid | Provider(error: ProviderError) | Unexpected

  /** The entries of the recorded path: `structured`, then `repair` or `retry`. */
  datatype Stage = Structured | Repaired | Retried

  type Path = seq<Stage>

  /** What is wrong with an outcome. */
  datatype Flaw = BadOutput | BadPlan | BadProvider

  /** The terminal categories: the cutoff, or the flaw of the last stage. */
  datatype Category = WorkCutoff | Failed(stage: Stage, flaw: Flaw)

  /** What happens in a run: an operation ends (its provider was `called`, unless the cutoff had
      passed before it began), or the wait for a rate limit times out. */
  datatype Event = Attempt(outcome: Outcome, called: bool) | WaitTimedOut

  /** `PlannerAttemptSummary` */
  datatype Attempts = Attempts(hcxCalls: nat, repairCalls: nat, parse: nat, semantic: nat, transport: nat)

  predicate InBounds(a: Attempts) {
    a.hcxCalls <= 2 && a.repairCalls <= 1 && a.parse <= 2 && a.semantic <= 2 && a.transport <= 2
  }

  function Failures(a: Attempts): nat {
    a.parse + a.semantic + a.transport
  }

  datatype Ending = Planned(plan: int, attempts: Attempts, path: Path) | Terminal(category: Category, final: Attempts) | Propagated

  predicate IsParse(e: Event) {
    e.Attempt? && e.outcome.OutputInvalid?
  }

  predicate IsSemantic(e: Event) {
    e.Attempt? && e.outcome.SemanticInvalid?
  }

  predicate IsTransport(e: Event) {
    e.WaitTimedOut? || e.outcome.Provider?
  }

  predicate IsAttempt(e: Event) {
    e.Attempt?
  }

  predicate IsCall(e: Event) {
    e.Attempt? && e.called
  }

  /** The counters of a run, recounted from what happened in it. */
  function Recount(log: seq<Event>): Attempts
    requires 1 <= |log| <= 2
  {
    var e := log[0];
    if |log| == 1 then
      Attempts(Bit(IsAttempt(e)), 0, Bit(IsParse(e)), Bit(IsSemantic(e)), Bit(IsTransport(e)))
    else
      var f := log[1];
      Attempts(Bit(IsAttempt(e)) + Bit(IsAttempt(f)), Bit(IsParse(e)), Bit(IsParse(e)) + Bit(IsParse(f)),
               Bit(IsSemantic(e)) + Bit(IsSemantic(f)), Bit(IsTransport(e)) + Bit(IsTransport(f)))
  }

  /** Operations that reached the provider. */
  function Calls(log: seq<Event>): nat {
    Count(IsCall, log)
  }

  /** What happened after the first operation, named by the path. */
  function PathOf(log: seq<Event>): Path {
    if |log| != 2 || log[1].WaitTimedOut? then [Structured]
    else if IsParse(log[0]) then [Structured, Repaired]
    else [Structured, Retried]
  }

  /** Failures a second call may be spent on. */
  predicate Retryable(e: ProviderError) {
    e.Transport? || (e.RateLimited? && e.reset.Some?) || (e.Http? && e.status >= 500)
  }

  predicate RepairedOrRetried(o: Outcome) {
    o.OutputInvalid? || (o.Provider? && Retryable(o.error))
  }

  predicate Waited(o: Outcome) {
    o.Provider? && o.error.RateLimited? && o.error.reset.Some?
  }

  /** The shapes a run can have. */
  predicate WellFormed(log: seq<Event>) {
    && 1 <= |log| <= 2 && log[0].Attempt?
    && (|log| == 2 && log[1].Attempt? ==> RepairedOrRetried(log[0].outcome))
    && (|log| == 2 && log[1].WaitTimedOut? ==> Waited(log[0].outcome))
  }

  /** The end of a run whose second operation ended in `o`, given the counters before it. */
  function Second(stage: Stage, o: Outcome, path: Path, a: Attempts): Ending {
    if o.Answered? then Planned(o.plan, a, path)
    else if o.Unexpected? then Propagated
    else if o.OutputInvalid? then Terminal(Failed(stage, BadOutput), a.(parse := a.parse + 1))
    else if o.SemanticInvalid? then Terminal(Failed(stage, BadPlan), a.(semantic := a.semantic + 1))
    else Terminal(Failed(stage, BadProvider), a.(transport := a.transport + 1))
  }

  /** The terminal category of a failed run: the flaw of its last event, at the stage the path ends with. */
  function CategoryOf(log: seq<Event>): Category
    requires 1 <= |log| <= 2
  {
    if |log| == 1 && IsParse(log[0]) then WorkCutoff
    else
      var last := log[|log| - 1];
      Failed(PathOf(log)[|PathOf(log)| - 1],
             if IsParse(last) then BadOutput else if IsSemantic(last) then BadPlan else BadProvider)
  }

  predicate Ended(e: Event) {
    e.Attempt? && (e.outcome.Answered? || e.outcome.Unexpected?)
  }

  /** Counters stay within the summary's bounds, and recorded calls bound actual ones. */
  lemma {:induction false} RunBounds(log: seq<Event>)
    requires WellFormed(log)
    ensures InBounds(Recount(log)) && Calls(log) <= Recount(log).hcxCalls
  {
    if |log| == 2 {
      assert log == [log[0]] + [log[1]];
      CountConcat(IsCall, [log[0]], [log[1]]);
      assert IsCall(log[1]) ==> IsAttempt(log[1]);
    }
  }

  /** The failures a run that ended with `last` must report. */
  function Owed(calls: nat, last: Event): int {
    if Ended(last) then calls - 1 else if last.WaitTimedOut? then calls + 1 else calls
  }

  /** Success owes one failure less than calls, a terminal failure as many, a timed-out wait one more. */
  lemma {:induction false} RunAccounts(log: seq<Event>)
    requires WellFormed(log)
    ensures Failures(Recount(log)) == Owed(Recount(log).hcxCalls, log[|log| - 1])
  {
    var e := log[0];
    if |log| == 2 {
      FirstFailed(log);
      TwoEvents(e, log[1]);
    } else {
      OneFailure(e);
    }
  }

  lemma {:induction false} FirstFailed(log: seq<Event>)
    requires WellFormed(log) && |log| == 2
    ensures log[0].Attempt? && !Ended(log[0])
  {
  }

  lemma {:induction false} TwoEvents(e: Event, f: Event)
    ensures (Bit(IsParse(e)) + Bit(IsParse(f))) + (Bit(IsSemantic(e)) + Bit(IsSemantic(f)))
      + (Bit(IsTransport(e)) + Bit(IsTransport(f))) == Bit(!Ended(e)) + Bit(!Ended(f))
  {
    OneFailure(e);
    OneFailure(f);
  }

  /** An event is one failure of one kind, unless it is an answer or an unexpected error. */
  lemma {:induction false} OneFailure(e: Event)
    ensures Bit(IsParse(e)) + Bit(IsSemantic(e)) + Bit(IsTransport(e)) == Bit(!Ended(e))
    ensures IsAttempt(e) <==> !e.WaitTimedOut?
  {
  }

  /** The three possible paths, tied to the counters. */
  lemma {:induction false} RunPaths(log: seq<Event>)
    requires WellFormed(log)
    ensures PathOf(log) in {[Structured], [Structured, Repaired], [Structured, Retried]}
    ensures |PathOf(log)| == Recount(log).hcxCalls
    ensures PathOf(log) == [Structured, Repaired] <==> Recount(log).repairCalls == 1
  {
  }

  /** Bounded counters, one recorded call per stage, no unrecorded provider call, and the failures the run owes. */
  predicate Lawful(log: seq<Event>, a: Attempts, path: Path)
    requires 1 <= |log| <= 2
  {
    && InBounds(a) && a.hcxCalls == |path| && Calls(log) <= a.hcxCalls
    && a.repairCalls == Bit(path == [Structured, Repaired])
    && Failures(a) == Owed(a.hcxCalls, log[|log| - 1])
  }

  lemma {:induction false} RunLawful(log: seq<Event>)
    requires WellFormed(log)
    ensures Lawful(log, Recount(log), PathOf(log))
  {
    RunBounds(log);
    RunAccounts(log);
    RunPaths(log);
  }

  /** Clock readings, provider behaviour and the rate-limit wait are inputs. */
  class PlannerService {
    const cutoff: real
    const clock: nat -> real
    const outcomes: nat -> Outcome
    const waitEnds: bool
    var readings: nat
    var log: seq<Event>

    constructor (cutoff: real, clock: nat -> real, outcomes: nat -> Outcome, waitEnds: bool)
      ensures this.cutoff == cutoff && this.clock == clock && this.outcomes == outcomes && this.waitEnds == waitEnds
      ensures readings == 0 && log == []
    {
      this.cutoff, this.clock, this.outcomes, this.waitEnds := cutoff, clock, outcomes, waitEnds;
      readings, log := 0, [];
    }

    /** `remaining_work_seconds` at the i-th reading of the clock. */
    function RemainingAt(i: nat): real {
      if cutoff <= clock(i) then 0.0 else cutoff - clock(i)
    }

    method Remaining() returns (r: real)
      modifies this`readings
      ensures r == RemainingAt(old(readings)) && readings == old(readings) + 1
    {
      r := RemainingAt(readings);
      readings := readings + 1;
    }

    /** How the k-th operation ends when it begins at the i-th reading. */
    function AttemptAt(k: nat, i: nat): Event {
      if RemainingAt(i) <= 0.0 then Attempt(Provider(TimedOut), false) else Attempt(outcomes(k), true)
    }

    /** `_within_deadline`: after the cutoff the operation is closed before it calls anyone. */
    method Within() returns (o: Outcome)
      modifies this`readings, this`log
      ensures readings == old(readings) + 1
      ensures log == old(log) + [AttemptAt(|old(log)|, old(readings))]
      ensures o == AttemptAt(|old(log)|, old(readings)).outcome
    {
      var remaining := Remaining();
      if remaining <= 0.0 {
        o := Provider(TimedOut);
        log := log + [Attempt(o, false)];
      } else {
        o := outcomes(|log|);
        log := log + [Attempt(o, true)];
      }
    }

    /** A second call is allowed: its guard, over the readings a caller could take. */
    predicate SecondAllowed(first: Outcome, i: nat) {
      match first
      case OutputInvalid => RemainingAt(i) > 0.0
      case Provider(error) => RetryAllowed(error, i)
      case _ => false
    }

    predicate RetryAllowed(error: ProviderError, i: nat) {
      match error
      case Transport => RemainingAt(i) > 0.0
      case Http(status) => status >= 500 && RemainingAt(i) > 0.0
      case RateLimited(Some(delay)) => delay < RemainingAt(i) && waitEnds && RemainingAt(i + 2) > 0.0
      case _ => false
    }

    /** The wait for a rate limit begins and does not end in time. */
    predicate WaitFails(first: Outcome, i: nat) {
      first.Provider? && first.error.RateLimited? && first.error.reset.Some?
      && first.error.reset.value < RemainingAt(i) && !waitEnds
    }

    /** What happens, from the clock, the provider and the wait alone: the first operation at reading 0, then a timed-out
        wait, or a second operation at the reading after its guard, or nothing. */
    function Events(): seq<Event> {
      var first := AttemptAt(0, 0);
      if WaitFails(first.outcome, 1) then [first, WaitTimedOut]
      else if !SecondAllowed(first.outcome, 1) then [first]
      else [first, AttemptAt(1, if first.outcome.Provider? && first.outcome.error.RateLimited? then 4 else 2)]
    }

    ghost predicate Monotone() {
      forall i: nat, j: nat | i <= j :: clock(i) <= clock(j)
    }

    /** Exactly when a second call is made, by the clock: broken output, transport errors and statuses of 500 or more with
        time left, and rate limits whose reset lies before the cutoff, once the wait has ended with time left. */
    predicate SecondDue() {
      && clock(0) < cutoff
      && match outcomes(0)
         case OutputInvalid => clock(1) < cutoff
         case Provider(Transport) => clock(1) < cutoff
         case Provider(Http(status)) => status >= 500 && clock(1) < cutoff
         case Provider(RateLimited(Some(delay))) =>
           (delay < 0.0 || clock(1) + delay < cutoff) && waitEnds && clock(3) < cutoff
         case _ => false
    }

    lemma {:induction false} SecondExactly()
      ensures SecondAllowed(AttemptAt(0, 0).outcome, 1) <==> SecondDue()
    {
    }

    /** Client errors, resets at or after the cutoff and runs past the cutoff are never retried. */
    lemma {:induction false} NeverRetried(error: ProviderError, i: nat)
      requires Monotone()
      ensures error.Http? && error.status < 500 ==> !RetryAllowed(error, i)
      ensures error.RateLimited? && (error.reset.None? || clock(i) + error.reset.value >= cutoff) ==> !RetryAllowed(error, i)
      ensures clock(i) >= cutoff ==> !RetryAllowed(error, i)
    {
      assert clock(i) <= clock(i + 2);
    }

    /** `_may_retry`; the wait itself may time out. */
    method MayRetry(error: ProviderError) returns (may: bool, timedOut: bool)
      requires error.Transport? || error.RateLimited? || error.Http?
      modifies this`readings, this`log
      ensures may <==> RetryAllowed(error, old(readings))
      ensures timedOut <==> WaitFails(Provider(error), old(readings))
      ensures log == if timedOut then old(log) + [WaitTimedOut] else old(log)
      ensures may ==> readings == old(readings) + if error.RateLimited? then 3 else 1
    {
      timedOut := false;
      if error.Http? && error.status < 500 { return false, false; }
      if error.RateLimited? {
        if error.reset.None? { return false, false; }
        var remaining := Remaining();
        if error.reset.value >= remaining { return false, false; }
        var timeout := Remaining();
        if !waitEnds {
          log := log + [WaitTimedOut];
          return false, true;
        }
      }
      var left := Remaining();
      may := left > 0.0;
    }

    /** What a finished run is, in terms of its log. */
    ghost predicate Accounted(ending: Ending, path: Path)
      reads this
    {
      && WellFormed(log) && log == Events()
      && path == PathOf(log)
      && (ending.Propagated? <==> log[|log| - 1] == Attempt(Unexpected, true))
      && (ending.Planned? ==> log[|log| - 1] == Attempt(Answered(ending.plan), true) && ending.path == path)
      && (ending.Planned? ==> ending.attempts == Recount(log))
      && (ending.Terminal? ==> ending.final == Recount(log) && !Ended(log[|log| - 1]))
      && (ending.Terminal? ==> ending.category == CategoryOf(log))
      && (|path| == 2 <==> SecondAllowed(log[0].outcome, 1))
    }

    /** The `PlannerOutputError` branch. */
    method Repair(before: Path, a: Attempts) returns (ending: Ending, path: Path)
      requires readings == 1 && log == [AttemptAt(0, 0)] && log[0].outcome == OutputInvalid
      requires before == [Structured] && a == Attempts(1, 0, 1, 0, 0)
      modifies this`readings, this`log
      ensures Accounted(ending, path)
    {
      path := before;
      var remaining := Remaining();
      if remaining <= 0.0 { return Terminal(WorkCutoff, a), path; }
      path := path + [Repaired];
      var second := Within();
      ending := Second(Repaired, second, path, a.(hcxCalls := 2, repairCalls := 1));
    }

    /** The branch for retryable provider errors. */
    method Retry(error: ProviderError, before: Path, a: Attempts) returns (ending: Ending, path: Path)
      requires readings == 1 && log == [AttemptAt(0, 0)] && log[0].outcome == Provider(error)
      requires error.Transport? || error.RateLimited? || error.Http?
      requires before == [Structured] && a == Attempts(1, 0, 0, 0, 1)
      modifies this`readings, this`log
      ensures Accounted(ending, path)
    {
      path := before;
      var may, timedOut := MayRetry(error);
      var counted := if timedOut then a.(transport := a.transport + 1) else a;
      if !may { return Terminal(Failed(Structured, BadProvider), counted), path; }
      path := path + [Retried];
      var second := Within();
      ending := Second(Retried, second, path, counted.(hcxCalls := 2));
    }

    /** The branches of `plan`. */
    method PlanBranches() returns (ending: Ending, path: Path)
      requires readings == 0 && log == []
      modifies this
      ensures Accounted(ending, path)
    {
      path := [Structured];
      var hcx, repairs, parse, semantic, transport := 1, 0, 0, 0, 0;
      var first := Within();
      if first.Answered? {
        return Planned(first.plan, Attempts(hcx, repairs, parse, semantic, transport), path), path;
      }
      if first.Unexpected? { return Propagated, path; }
      if first.OutputInvalid? {
        parse := parse + 1;
        ending, path := Repair(path, Attempts(hcx, repairs, parse, semantic, transport));
        return;
      }
      if first.SemanticInvalid? {
        semantic := semantic + 1;
        return Terminal(Failed(Structured, BadPlan), Attempts(hcx, repairs, parse, semantic, transport)), path;
      }
      transport := transport + 1;
      if first.error.Transport? || first.error.RateLimited? || first.error.Http? {
        ending, path := Retry(first.error, path, Attempts(hcx, repairs, parse, semantic, transport));
        return;
      }
      return Terminal(Failed(Structured, BadProvider), Attempts(hcx, repairs, parse, semantic, transport)), path;
    }

    /** `plan`, with the accounting laws of its summary. */
    method Plan() returns (ending: Ending, path: Path)
      requires readings == 0 && log == []
      modifies this
      ensures Accounted(ending, path)
      ensures path in {[Structured], [Structured, Repaired], [Structured, Retried]}
      ensures ending.Planned? ==> Lawful(log, ending.attempts, path)
      ensures ending.Terminal? ==> Lawful(log, ending.final, path)
      ensures |log| == 2 && log[1].Attempt? <==> SecondDue()
    {
      ending, path := PlanBranches();
      SecondExactly();
      RunPaths(log);
      RunLawful(log);
    }
  }
}
