/** Resumable soak measurement: a persisted baseline per case and version detects answer drift across restarts. */
module Soak {
  import opened Wrappers
  import opened Sequences

  /** One load sample as the soak sees it; hashes are 64 characters long. */
  datatype Sample = Sample(caseId: string, succeeded: bool, answer: Option<string>, version: Option<string>)

  datatype Observation = Observation(cycle: nat, sample: Sample, drift: bool)

  datatype SoakReport = SoakReport(
    identity: string, cyclesCompleted: nat, failureCount: nat, driftCount: nat,
    baselines: map<string, string>, observations: seq<Observation>)

  /** Which cases promise one answer per version. */
  type Determinism = map<string, bool>

  ghost predicate ValidSample(deterministic: Determinism, s: Sample) {
    s.caseId in deterministic && (s.version.Some? ==> |s.version.value| == 64)
  }

  ghost predicate ValidCycle(deterministic: Determinism, samples: seq<Sample>) {
    forall s | s in samples :: ValidSample(deterministic, s)
  }

  ghost predicate ValidCycles(deterministic: Determinism, cycles: seq<seq<Sample>>) {
    forall c | c in cycles :: ValidCycle(deterministic, c)
  }

  function BaselineKey(caseId: string, version: string): string {
    caseId + ":" + version
  }

  /** The key is unambiguous although case identifiers may hold colons: the hash has a fixed length. */
  lemma {:induction false} BaselineKeyInjective(c: string, v: string, d: string, w: string)
    requires |v| == |w| && BaselineKey(c, v) == BaselineKey(d, w)
    ensures c == d && v == w
  {
    var k := BaselineKey(c, v);
    assert |c| == |d|;
    assert c == k[..|c|] && d == k[..|d|];
    assert v == k[|c| + 1..] && w == k[|d| + 1..];
  }

  // ---------- one cycle ----------

  /** A sample that takes part in drift detection. */
  predicate Qualifies(deterministic: Determinism, s: Sample) {
    s.succeeded && s.caseId in deterministic && deterministic[s.caseId] && s.version.Some? && s.answer.Some?
  }

  predicate Drifts(deterministic: Determinism, baselines: map<string, string>, s: Sample) {
    && Qualifies(deterministic, s)
    && BaselineKey(s.caseId, s.version.value) in baselines
    && baselines[BaselineKey(s.caseId, s.version.value)] != s.answer.value
  }

  function WithBaseline(deterministic: Determinism, baselines: map<string, string>, s: Sample): map<string, string> {
    if Qualifies(deterministic, s) && BaselineKey(s.caseId, s.version.value) !in baselines
    then baselines[BaselineKey(s.caseId, s.version.value) := s.answer.value]
    else baselines
  }

  datatype Progress = Progress(baselines: map<string, string>, observations: seq<Observation>)

  function Observe(deterministic: Determinism, cycle: nat, p: Progress, s: Sample): Progress {
    Progress(WithBaseline(deterministic, p.baselines, s),
             p.observations + [Observation(cycle, s, Drifts(deterministic, p.baselines, s))])
  }

  function ObserveAll(deterministic: Determinism, cycle: nat, p: Progress, samples: seq<Sample>): Progress {
    if samples == [] then p
    else Observe(deterministic, cycle, ObserveAll(deterministic, cycle, p, samples[..|samples| - 1]),
                 samples[|samples| - 1])
  }

  function Failures(observations: seq<Observation>): nat {
    if observations == [] then 0
    else Failures(observations[..|observations| - 1])
         + (if observations[|observations| - 1].sample.succeeded then 0 else 1)
  }

  function DriftsIn(observations: seq<Observation>): nat {
    if observations == [] then 0
    else DriftsIn(observations[..|observations| - 1]) + (if observations[|observations| - 1].drift then 1 else 0)
  }

  /** The report after one more cycle. */
  function AfterCycle(deterministic: Determinism, r: SoakReport, samples: seq<Sample>): SoakReport {
    var p := ObserveAll(deterministic, r.cyclesCompleted + 1, Progress(r.baselines, r.observations), samples);
    SoakReport(r.identity, r.cyclesCompleted + 1, Failures(p.observations), DriftsIn(p.observations),
               p.baselines, p.observations)
  }

  function Fresh(identity: string): SoakReport {
    SoakReport(identity, 0, 0, 0, map[], [])
  }

  /** One uninterrupted run. */
  function AfterCycles(deterministic: Determinism, r: SoakReport, cycles: seq<seq<Sample>>): SoakReport {
    if cycles == [] then r
    else AfterCycle(deterministic, AfterCycles(deterministic, r, cycles[..|cycles| - 1]), cycles[|cycles| - 1])
  }

  // ---------- what drift means, from the observations alone ----------

  /** The earliest qualifying answer for a case and version. */
  function FirstAnswer(
    deterministic: Determinism, observations: seq<Observation>, caseId: string, version: string): Option<string>
  {
    if observations == [] then None
    else
      var earlier := FirstAnswer(deterministic, observations[..|observations| - 1], caseId, version);
      var s := observations[|observations| - 1].sample;
      if earlier.Some? then earlier
      else if Qualifies(deterministic, s) && s.caseId == caseId && s.version == Some(version) then s.answer
      else None
  }

  /** An observation drifts iff it qualifies and differs from the earliest qualifying answer before it. */
  ghost predicate DriftExact(deterministic: Determinism, observations: seq<Observation>) {
    forall i | 0 <= i < |observations| ::
      var s := observations[i].sample;
      observations[i].drift <==>
        && Qualifies(deterministic, s)
        && var first := FirstAnswer(deterministic, observations[..i], s.caseId, s.version.value);
           first.Some? && first != s.answer
  }

  /** The stored baselines are exactly the earliest qualifying answers. */
  ghost predicate BaselinesExact(
    deterministic: Determinism, baselines: map<string, string>, observations: seq<Observation>)
  {
    forall caseId, version | |version| == 64 ::
      var first := FirstAnswer(deterministic, observations, caseId, version);
      var key := BaselineKey(caseId, version);
      (key in baselines <==> first.Some?) && (key in baselines ==> Some(baselines[key]) == first)
  }

  lemma {:induction false} ObserveExact(deterministic: Determinism, cycle: nat, p: Progress, s: Sample)
    requires ValidSample(deterministic, s)
    requires DriftExact(deterministic, p.observations) && BaselinesExact(deterministic, p.baselines, p.observations)
    ensures var q := Observe(deterministic, cycle, p, s);
            DriftExact(deterministic, q.observations) && BaselinesExact(deterministic, q.baselines, q.observations)
  {
    var q := Observe(deterministic, cycle, p, s);
    assert q.observations[..|p.observations|] == p.observations;
    assert DriftExact(deterministic, q.observations) by {
      forall i | 0 <= i < |p.observations| ensures q.observations[..i] == p.observations[..i] {}
    }
    forall caseId, version | |version| == 64
      ensures var first := FirstAnswer(deterministic, q.observations, caseId, version);
              var key := BaselineKey(caseId, version);
              (key in q.baselines <==> first.Some?) && (key in q.baselines ==> Some(q.baselines[key]) == first)
    {
      if Qualifies(deterministic, s) && BaselineKey(caseId, version) == BaselineKey(s.caseId, s.version.value) {
        BaselineKeyInjective(caseId, version, s.caseId, s.version.value);
      }
    }
  }

  lemma {:induction false} ObserveAllExact(deterministic: Determinism, cycle: nat, p: Progress, samples: seq<Sample>)
    requires ValidCycle(deterministic, samples)
    requires DriftExact(deterministic, p.observations) && BaselinesExact(deterministic, p.baselines, p.observations)
    ensures var q := ObserveAll(deterministic, cycle, p, samples);
            DriftExact(deterministic, q.observations) && BaselinesExact(deterministic, q.baselines, q.observations)
  {
    if samples != [] {
      ObserveAllExact(deterministic, cycle, p, samples[..|samples| - 1]);
      ObserveExact(deterministic, cycle, ObserveAll(deterministic, cycle, p, samples[..|samples| - 1]),
                   samples[|samples| - 1]);
    }
  }

  /** Everything a report states follows from its observations. */
  ghost predicate Faithful(deterministic: Determinism, r: SoakReport) {
    && DriftExact(deterministic, r.observations)
    && BaselinesExact(deterministic, r.baselines, r.observations)
    && r.failureCount == |set i | 0 <= i < |r.observations| && !r.observations[i].sample.succeeded|
    && r.driftCount == |set i | 0 <= i < |r.observations| && r.observations[i].drift|
  }

  lemma {:induction false} FailuresCounted(observations: seq<Observation>)
    ensures Failures(observations) == Count((o: Observation) => !o.sample.succeeded, observations)
  {
    if observations != [] {
      FailuresCounted(observations[..|observations| - 1]);
      CountSnoc((o: Observation) => !o.sample.succeeded, observations);
    }
  }

  lemma {:induction false} DriftsCounted(observations: seq<Observation>)
    ensures DriftsIn(observations) == Count((o: Observation) => o.drift, observations)
  {
    if observations != [] {
      DriftsCounted(observations[..|observations| - 1]);
      CountSnoc((o: Observation) => o.drift, observations);
    }
  }

  /** The two counters are the sizes of the index sets they stand for. */
  lemma {:induction false} CountersExact(observations: seq<Observation>)
    ensures Failures(observations) == |set i | 0 <= i < |observations| && !observations[i].sample.succeeded|
    ensures DriftsIn(observations) == |set i | 0 <= i < |observations| && observations[i].drift|
  {
    FailuresCounted(observations);
    DriftsCounted(observations);
    CountIndices((o: Observation) => !o.sample.succeeded, observations,
                 set i | 0 <= i < |observations| && !observations[i].sample.succeeded);
    CountIndices((o: Observation) => o.drift, observations, set i | 0 <= i < |observations| && observations[i].drift);
  }

  lemma {:induction false} SoakFaithful(deterministic: Determinism, identity: string, cycles: seq<seq<Sample>>)
    requires ValidCycles(deterministic, cycles)
    ensures Faithful(deterministic, AfterCycles(deterministic, Fresh(identity), cycles))
    ensures AfterCycles(deterministic, Fresh(identity), cycles).cyclesCompleted == |cycles|
    ensures AfterCycles(deterministic, Fresh(identity), cycles).identity == identity
  {
    if cycles != [] {
      var before := AfterCycles(deterministic, Fresh(identity), cycles[..|cycles| - 1]);
      SoakFaithful(deterministic, identity, cycles[..|cycles| - 1]);
      ObserveAllExact(deterministic, before.cyclesCompleted + 1, Progress(before.baselines, before.observations),
                      cycles[|cycles| - 1]);
      CountersExact(AfterCycles(deterministic, Fresh(identity), cycles).observations);
    }
  }

  lemma {:induction false} ObserveAllKeeps(deterministic: Determinism, cycle: nat, p: Progress, samples: seq<Sample>)
    ensures var q := ObserveAll(deterministic, cycle, p, samples);
            p.observations <= q.observations
            && forall k | k in p.baselines :: k in q.baselines && q.baselines[k] == p.baselines[k]
  {
    if samples != [] {
      ObserveAllKeeps(deterministic, cycle, p, samples[..|samples| - 1]);
    }
  }

  /** A baseline once set never changes, and no observation is ever rewritten. */
  lemma {:induction false} HistoryKept(deterministic: Determinism, r: SoakReport, cycles: seq<seq<Sample>>)
    ensures var later := AfterCycles(deterministic, r, cycles);
            r.observations <= later.observations
            && forall k | k in r.baselines :: k in later.baselines && later.baselines[k] == r.baselines[k]
  {
    if cycles != [] {
      var before := AfterCycles(deterministic, r, cycles[..|cycles| - 1]);
      HistoryKept(deterministic, r, cycles[..|cycles| - 1]);
      ObserveAllKeeps(deterministic, before.cyclesCompleted + 1, Progress(before.baselines, before.observations),
                      cycles[|cycles| - 1]);
    }
  }

  lemma {:induction false} AfterCyclesConcat(
    deterministic: Determinism, r: SoakReport, a: seq<seq<Sample>>, b: seq<seq<Sample>>)
    ensures AfterCycles(deterministic, r, a + b)
         == AfterCycles(deterministic, AfterCycles(deterministic, r, a), b)
  {
    if b == [] {
      assert a + b == a;
    } else {
      AfterCyclesConcat(deterministic, r, a, b[..|b| - 1]);
      assert (a + b)[..|a + b| - 1] == a + b[..|b| - 1];
    }
  }

  // ---------- the runner and its report file ----------

  /** One process lifetime: the cycles its samples came from, its cycle bound, and the samples of a cycle that was
      cut short before the report was written. */
  datatype Session = Session(cycles: seq<seq<Sample>>, maxCycles: Option<nat>, cut: seq<Sample>)

  /** The cycles a session completes when `completed` cycles are already recorded. */
  function Completed(session: Session, completed: nat): seq<seq<Sample>> {
    if session.maxCycles.None? then session.cycles
    else if session.maxCycles.value <= completed then []
    else if |session.cycles| <= session.maxCycles.value - completed then session.cycles
    else session.cycles[..session.maxCycles.value - completed]
  }

  /** All cycles completed over a series of sessions. */
  function AllCompleted(sessions: seq<Session>): seq<seq<Sample>> {
    if sessions == [] then []
    else
      var earlier := AllCompleted(sessions[..|sessions| - 1]);
      earlier + Completed(sessions[|sessions| - 1], |earlier|)
  }

  ghost predicate ValidSessions(deterministic: Determinism, sessions: seq<Session>) {
    forall s | s in sessions :: ValidCycles(deterministic, s.cycles) && ValidCycle(deterministic, s.cut)
  }

  class SoakRunner {
    const deterministic: Determinism
    const identity: string
    var file: Option<SoakReport>
    var report: SoakReport

    constructor (deterministic: Determinism, identity: string)
      ensures this.deterministic == deterministic && this.identity == identity && file == None
    {
      this.deterministic, this.identity, file, report := deterministic, identity, None, Fresh(identity);
    }

    /** `_resume`: the stored report if its configuration is the same, a fresh one if there is none. */
    method Resume() returns (ok: bool)
      modifies this`report
      ensures ok <==> (file.Some? ==> file.value.identity == identity)
      ensures ok ==> report == if file.Some? then file.value else Fresh(identity)
      ensures !ok ==> report == old(report)
    {
      if file.None? {
        report := Fresh(identity);
        return true;
      }
      if file.value.identity != identity {
        return false;
      }
      report := file.value;
      return true;
    }

    /** The sample loop of a cycle. */
    method Collect(samples: seq<Sample>) returns (baselines: map<string, string>, observations: seq<Observation>)
      requires ValidCycle(deterministic, samples)
      ensures Progress(baselines, observations)
           == ObserveAll(deterministic, report.cyclesCompleted + 1, Progress(report.baselines, report.observations), samples)
    {
      var cycle := report.cyclesCompleted + 1;
      baselines, observations := report.baselines, report.observations;
      for i := 0 to |samples|
        invariant Progress(baselines, observations)
               == ObserveAll(deterministic, cycle, Progress(report.baselines, report.observations), samples[..i])
      {
        assert samples[..i + 1][..i] == samples[..i];
        var s := samples[i];
        assert s in samples;
        var qualified := s.succeeded && deterministic[s.caseId] && s.version.Some? && s.answer.Some?;
        var drift := false;
        if qualified {
          var key := BaselineKey(s.caseId, s.version.value);
          if key in baselines {
            drift := baselines[key] != s.answer.value;
          } else {
            baselines := baselines[key := s.answer.value];
          }
        }
        observations := observations + [Observation(cycle, s, drift)];
      }
      assert samples[..|samples|] == samples;
    }

    /** One completed cycle: the replaced report is written to the file. */
    method Cycle(samples: seq<Sample>)
      requires ValidCycle(deterministic, samples)
      modifies this
      ensures report == AfterCycle(deterministic, old(report), samples) && file == Some(report)
    {
      var baselines, observations := Collect(samples);
      report := SoakReport(report.identity, report.cyclesCompleted + 1, Failures(observations), DriftsIn(observations),
                           baselines, observations);
      file := Some(report);
    }

    /** The cycle loop: it goes on while there are samples and the recorded count is below the bound. */
    method RunCycles(cycles: seq<seq<Sample>>, maxCycles: Option<nat>) returns (n: nat)
      requires ValidCycles(deterministic, cycles)
      modifies this
      ensures n <= |cycles| && report == AfterCycles(deterministic, old(report), cycles[..n])
      ensures n < |cycles| ==> maxCycles.Some? && old(report).cyclesCompleted + n >= maxCycles.value
      ensures n > 0 && maxCycles.Some? ==> old(report).cyclesCompleted + n <= maxCycles.value
      ensures file == if n == 0 then old(file) else Some(report)
    {
      n := 0;
      while n < |cycles| && (maxCycles.None? || report.cyclesCompleted < maxCycles.value)
        invariant 0 <= n <= |cycles|
        invariant n > 0 && maxCycles.Some? ==> old(report).cyclesCompleted + n <= maxCycles.value
        invariant report.cyclesCompleted == old(report).cyclesCompleted + n
        invariant report == AfterCycles(deterministic, old(report), cycles[..n])
        invariant file == if n == 0 then old(file) else Some(report)
      {
        assert cycles[..n + 1][..n] == cycles[..n];
        assert cycles[n] in cycles;
        Cycle(cycles[n]);
        n := n + 1;
      }
    }

    /** `run`, until the session ends; what a cut cycle collected is never written. */
    method RunSession(session: Session) returns (ok: bool)
      requires ValidCycles(deterministic, session.cycles) && ValidCycle(deterministic, session.cut)
      modifies this
      ensures ok <==> (old(file).Some? ==> old(file).value.identity == identity)
      ensures !ok ==> file == old(file)
      ensures ok ==> var start := if old(file).Some? then old(file).value else Fresh(identity);
                     file == AfterSession(deterministic, old(file), start, session)
    {
      ok := Resume();
      if !ok { return; }
      ghost var completed := report.cyclesCompleted;
      var n := RunCycles(session.cycles, session.maxCycles);
      CompletedPrefix(session, completed, n);
      var _, _ := Collect(session.cut);
    }
  }

  /** The file after a session that started from `start`. */
  function AfterSession(
    deterministic: Determinism, file: Option<SoakReport>, start: SoakReport, session: Session): Option<SoakReport>
  {
    var done := Completed(session, start.cyclesCompleted);
    if done == [] then file else Some(AfterCycles(deterministic, start, done))
  }

  lemma {:induction false} CompletedPrefix(session: Session, completed: nat, n: nat)
    requires n <= |session.cycles|
    requires n < |session.cycles| ==> session.maxCycles.Some? && completed + n >= session.maxCycles.value
    requires n > 0 && session.maxCycles.Some? ==> completed + n <= session.maxCycles.value
    ensures Completed(session, completed) == session.cycles[..n]
  {
    assert session.cycles[..|session.cycles|] == session.cycles;
  }

  /** The file as a function of the cycles completed so far. */
  function FileAfter(deterministic: Determinism, identity: string, cycles: seq<seq<Sample>>): Option<SoakReport> {
    if cycles == [] then None else Some(AfterCycles(deterministic, Fresh(identity), cycles))
  }

  lemma {:induction false} SessionExtends(
    deterministic: Determinism, identity: string, earlier: seq<seq<Sample>>, session: Session)
    requires ValidCycles(deterministic, earlier)
    ensures var file := FileAfter(deterministic, identity, earlier);
            var start := if file.Some? then file.value else Fresh(identity);
            && start.identity == identity
            && AfterSession(deterministic, file, start, session)
            == FileAfter(deterministic, identity, earlier + Completed(session, |earlier|))
  {
    SoakFaithful(deterministic, identity, earlier);
    var done := Completed(session, |earlier|);
    AfterCyclesConcat(deterministic, Fresh(identity), earlier, done);
    if done == [] { assert earlier + done == earlier; }
  }

  /** Any number of stops and resumes leaves the report of one uninterrupted run on the completed cycles. */
  method RunSessions(deterministic: Determinism, identity: string, sessions: seq<Session>)
    returns (stored: Option<SoakReport>)
    requires ValidSessions(deterministic, sessions)
    ensures stored == FileAfter(deterministic, identity, AllCompleted(sessions))
    ensures stored.Some? ==> Faithful(deterministic, stored.value)
  {
    var runner := new SoakRunner(deterministic, identity);
    for i := 0 to |sessions|
      invariant runner.deterministic == deterministic && runner.identity == identity && fresh(runner)
      invariant ValidCycles(deterministic, AllCompleted(sessions[..i]))
      invariant runner.file == FileAfter(deterministic, identity, AllCompleted(sessions[..i]))
    {
      ghost var earlier := AllCompleted(sessions[..i]);
      assert sessions[..i + 1][..i] == sessions[..i];
      assert sessions[i] in sessions;
      SessionExtends(deterministic, identity, earlier, sessions[i]);
      var ok := runner.RunSession(sessions[i]);
    }
    assert sessions[..|sessions|] == sessions;
    SoakFaithful(deterministic, identity, AllCompleted(sessions));
    stored := runner.file;
  }
}
